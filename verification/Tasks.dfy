/** The tasks a node can run, as values, with the effect of each life-cycle call. */
module Tasks {
  import opened SwarmTypes
  import opened Motion
  import Ballots

  const SCAN_MS: int := 5000
  const ASSESSMENT_MS: int := 1000
  const DESCENT_SPEED: real := 1.0

  /** FailSafeTask: stop and wait. */
  datatype Assessment = Assessment(durationMs: int, start: TimePoint, finished: bool)

  /** LandingTask: vertical descent. */
  datatype Descent = Descent(lastUpdate: TimePoint, finished: bool)

  /** GoToTargetTask: one horizontal leg. */
  datatype Leg = Leg(x: real, y: real, lastUpdate: TimePoint, finished: bool)

  /** ScoutSearchTask: fly to the centre, then scan. */
  datatype Search = Search(x: real, y: real, scanMs: int, lastUpdate: TimePoint, scanStart: TimePoint,
                           reached: bool, finished: bool)

  datatype Task =
    | Idle
    | Voting(ballot: Ballots.Ballot)
    | FailSafe(assessment: Assessment)
    | Landing(descent: Descent)
    | GoToTarget(leg: Leg)
    | ScoutSearch(search: Search)

  function NewFailSafe(): Task { FailSafe(Assessment(ASSESSMENT_MS, 0, false)) }
  function NewLanding(): Task { Landing(Descent(0, false)) }
  function NewGoToTarget(x: real, y: real): Task { GoToTarget(Leg(x, y, 0, false)) }
  function NewScoutSearch(x: real, y: real): Task { ScoutSearch(Search(x, y, SCAN_MS, 0, 0, false, false)) }

  function TypeOf(t: Task): TaskType {
    match t
    case Idle => IdleType
    case Voting(_) => ConsensusType
    case FailSafe(_) => FailSafeType
    case Landing(_) => LandingType
    case GoToTarget(_) => GoToTargetType
    case ScoutSearch(_) => ScoutSearchType
  }

  predicate IsFinished(t: Task) {
    match t
    case Idle => false
    case Voting(b) => b.result != Undecided
    case FailSafe(a) => a.finished
    case Landing(d) => d.finished
    case GoToTarget(l) => l.finished
    case ScoutSearch(s) => s.finished
  }

  /** A flight order this node accepted. */
  predicate IsMission(t: Task) {
    t.GoToTarget? || t.ScoutSearch?
  }

  // ---------------------------------------------------------------------
  //  on_enter and run, kind by kind
  // ---------------------------------------------------------------------

  function EnterAssessment(a: Assessment, now: TimePoint): Assessment { a.(start := now, finished := false) }
  function EnterDescent(d: Descent, now: TimePoint): Descent { d.(lastUpdate := now, finished := false) }
  function EnterLeg(l: Leg, now: TimePoint): Leg { l.(lastUpdate := now, finished := false) }
  function EnterSearch(s: Search, now: TimePoint): Search { s.(lastUpdate := now, reached := false, finished := false) }

  function RunAssessment(a: Assessment, now: TimePoint): Assessment {
    if ToMillis(now - a.start) >= a.durationMs then a.(finished := true) else a
  }

  function RunDescent(d: Descent, now: TimePoint, f: Flight): (Descent, Flight) {
    var d1 := d.(lastUpdate := now);
    if f.z <= 0.0 then (d1.(finished := true), f.(z := 0.0).ResetVelocity())
    else
      var g := f.(z := f.z - DESCENT_SPEED * ToSeconds(now - d.lastUpdate), vx := 0.0, vy := 0.0, vz := -DESCENT_SPEED);
      if g.z <= 0.0 then (d1.(finished := true), g.(z := 0.0).ResetVelocity()) else (d1, g)
  }

  function RunLeg(l: Leg, now: TimePoint, f: Flight, h: Hypot): (Leg, Flight) {
    var m := MoveToward(h, f, l.x, l.y, HORIZONTAL_SPEED, ARRIVAL_TOLERANCE, ToSeconds(now - l.lastUpdate));
    (l.(lastUpdate := now, finished := m.arrived), m.flight)
  }

  function RunSearch(s: Search, now: TimePoint, f: Flight, h: Hypot): (Search, Flight) {
    var s1 := s.(lastUpdate := now);
    if !s.reached then
      var m := MoveToward(h, f, s.x, s.y, HORIZONTAL_SPEED, ARRIVAL_TOLERANCE, ToSeconds(now - s.lastUpdate));
      (if m.arrived then s1.(reached := true, scanStart := now) else s1, m.flight)
    else
      (if ToMillis(now - s.scanStart) >= s.scanMs then s1.(finished := true) else s1, f.ResetVelocity())
  }

  // ---------------------------------------------------------------------
  //  The same calls on any task
  // ---------------------------------------------------------------------

  /** on_enter: the task afterwards and the flight state it shares with the node. */
  function EnterTask(t: Task, now: TimePoint, f: Flight): (Task, Flight) {
    match t
    case Idle => (t, f.ResetVelocity())
    case Voting(b) => (Voting(Ballots.Enter(b, now)), f)
    case FailSafe(a) => (FailSafe(EnterAssessment(a, now)), f.ResetVelocity())
    case Landing(d) => (Landing(EnterDescent(d, now)), f)
    case GoToTarget(l) => (GoToTarget(EnterLeg(l, now)), f)
    case ScoutSearch(s) => (ScoutSearch(EnterSearch(s, now)), f)
  }

  function RunTask(t: Task, now: TimePoint, f: Flight, h: Hypot): (Task, Flight) {
    match t
    case Idle => (t, f.ResetVelocity())
    case Voting(b) => (Voting(Ballots.Run(b, now)), f)
    case FailSafe(a) => (FailSafe(RunAssessment(a, now)), f.ResetVelocity())
    case Landing(d) => var (d', g) := RunDescent(d, now, f); (Landing(d'), g)
    case GoToTarget(l) => var (l', g) := RunLeg(l, now, f, h); (GoToTarget(l'), g)
    case ScoutSearch(s) => var (s', g) := RunSearch(s, now, f, h); (ScoutSearch(s'), g)
  }

  // ---------------------------------------------------------------------
  //  Task allocation: an order addressed to a role becomes that role's task
  // ---------------------------------------------------------------------

  predicate ConcernsThisNode(order: TaskOrder, config: SwarmConfig) {
    config.nodeType == DroneNode && order.role == config.role
  }

  function CreateTask(order: TaskOrder, config: SwarmConfig): Option<Task> {
    if !ConcernsThisNode(order, config) then None
    else match order.role
      case Scout => Some(NewScoutSearch(order.x, order.y))
      case Striker => Some(NewGoToTarget(order.x, order.y))
  }

  /** t is the mission that `order` asks of its role, at any stage of its life. */
  predicate Fulfils(t: Task, order: TaskOrder) {
    match order.role
    case Scout => t.ScoutSearch? && t.search.x == order.x && t.search.y == order.y
    case Striker => t.GoToTarget? && t.leg.x == order.x && t.leg.y == order.y
  }

  /** Exactly the drones of the addressed role get a task, and it is the one the order describes, not yet begun. */
  lemma AllocationFulfilsOrder(order: TaskOrder, config: SwarmConfig)
    ensures CreateTask(order, config).Some? <==> config.nodeType == DroneNode && config.role == order.role
    ensures CreateTask(order, config).Some? ==>
              var t := CreateTask(order, config).value;
              Fulfils(t, order) && IsMission(t) && !IsFinished(t)
  {
  }

  /** No life-cycle call changes the kind of a task or the battery. */
  lemma EnterKeepsKind(t: Task, now: TimePoint, f: Flight)
    ensures TypeOf(EnterTask(t, now, f).0) == TypeOf(t)
    ensures EnterTask(t, now, f).1.battery == f.battery
  {
  }

  lemma RunKeepsKind(t: Task, now: TimePoint, f: Flight, h: Hypot)
    ensures TypeOf(RunTask(t, now, f, h).0) == TypeOf(t)
    ensures RunTask(t, now, f, h).1.battery == f.battery
  {
  }
}
