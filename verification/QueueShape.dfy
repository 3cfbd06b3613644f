/**
 The queues that operation can produce: which tasks a drone or the ground station can hold, in
 which order, at the end of every step of every run.
 */
module QueueShape {
  import opened SwarmTypes
  import opened Motion
  import opened Tasks
  import opened Engine
  import Lifecycle

  /** The mission kind of a role. */
  predicate MissionOf(t: Task, role: DroneRole) {
    match role
    case Scout => t.ScoutSearch?
    case Striker => t.GoToTarget?
  }

  ghost predicate MissionsFrom(queue: seq<Slot>, first: nat, role: DroneRole) {
    forall i | first <= i < |queue| :: MissionOf(queue[i].task, role)
  }

  /** [], [Idle], [FailSafe, Landing] ++ missions, [Landing] ++ missions, or missions of the drone's own role. */
  ghost predicate DroneQueue(queue: seq<Slot>, role: DroneRole) {
    || MissionsFrom(queue, 0, role)
    || (|queue| == 1 && queue[0].task.Idle?)
    || (|queue| >= 2 && queue[0].task.FailSafe? && queue[1].task.Landing? && MissionsFrom(queue, 2, role))
    || (|queue| >= 1 && queue[0].task.Landing? && MissionsFrom(queue, 1, role))
  }

  /** [], [Idle], [Consensus], [FailSafe, Landing] or [Landing]. */
  ghost predicate StationQueue(queue: seq<Slot>) {
    || queue == []
    || (|queue| == 1 && (queue[0].task.Idle? || queue[0].task.Voting? || queue[0].task.Landing?))
    || (|queue| == 2 && queue[0].task.FailSafe? && queue[1].task.Landing?)
  }

  ghost predicate Shaped(n: Node) {
    match n.config.nodeType
    case DroneNode => DroneQueue(n.queue, n.config.role) && n.request == None
    case GcsNode => StationQueue(n.queue)
  }

  lemma StartActiveShaped(n: Node, now: TimePoint)
    requires Shaped(n)
    ensures Shaped(StartActive(n, now))
  {
    if n.queue != [] {
      var (t, f) := EnterTask(n.queue[0].task, now, n.flight);
      EnterKeepsKind(n.queue[0].task, now, n.flight);
    }
  }

  lemma PrepareShaped(n: Node, now: TimePoint)
    requires Shaped(n)
    ensures Shaped(Prepare(n, now))
  {
    assert Shaped(Fill(n));
    StartActiveShaped(Fill(n), now);
  }

  lemma ProcessCommandShaped(n: Node, c: Command)
    requires Shaped(n)
    ensures Shaped(ProcessCommand(n, c).0)
  {
    match c
    case ConsensusCommand(m) =>
    case OrderCommand(order) =>
  }

  lemma {:induction false} DrainShaped(n: Node)
    requires Shaped(n)
    ensures Shaped(Drain(n).0)
    decreases |n.commands|
  {
    if n.commands != [] {
      var rest := n.(commands := n.commands[1..]);
      ProcessCommandShaped(rest, n.commands[0]);
      DrainShaped(ProcessCommand(rest, n.commands[0]).0);
    }
  }

  lemma ConcludeShaped(n: Node, now: TimePoint)
    requires Shaped(n) && n.queue != []
    ensures Shaped(Conclude(n, now))
  {
    var t := n.queue[0].task;
    if IsFinished(t) {
      var exited := ExitFront(RecordOutcome(n, t));
      assert Shaped(exited);
      StartActiveShaped(exited, now);
    }
  }

  lemma RunFrontShaped(n: Node, now: TimePoint, h: Hypot)
    requires Shaped(n) && n.queue != []
    ensures Shaped(RunFront(n, now, h))
  {
    var (t, f) := RunTask(n.queue[0].task, now, n.flight, h);
    RunKeepsKind(n.queue[0].task, now, n.flight, h);
    ConcludeShaped(Advanced(n, t, f), now);
  }

  lemma SettleShaped(n: Node, now: TimePoint)
    requires Shaped(n)
    ensures Shaped(Settle(n, now))
  {
    PrepareShaped(HandleEmergency(ApplyRequest(n)), now);
  }

  lemma StepShaped(n: Node, now: TimePoint, h: Hypot)
    requires Shaped(n)
    ensures Shaped(Settle(n, now)) && Shaped(Ready(n, now)) && Shaped(Step(n, now, h))
  {
    SettleShaped(n, now);
    DrainShaped(Settle(n, now));
    PrepareShaped(Drain(Settle(n, now)).0, now);
    RunFrontShaped(Ready(n, now), now, h);
  }

  /** What may happen to a node in operation, by its kind. */
  predicate Operational(config: SwarmConfig, a: Action) {
    match config.nodeType
    case DroneNode => DroneAction(a)
    case GcsNode => StationAction(a)
  }

  ghost predicate OperationalRun(config: SwarmConfig, actions: seq<Action>) {
    forall i | 0 <= i < |actions| :: Operational(config, actions[i])
  }

  /** The state of a node between steps of an operational run. */
  ghost predicate AtRest(n: Node) {
    && Shaped(n)
    && Lifecycle.Orderly(n)
    && (n.queue != [] ==> n.started && n.activeType == TypeOf(n.queue[0].task))
  }

  lemma SettleAtRest(n: Node, now: TimePoint)
    requires AtRest(n)
    ensures AtRest(Settle(n, now))
  {
    SettleShaped(n, now);
    Lifecycle.SettleOrderly(n, now);
  }

  lemma StepAtRest(n: Node, now: TimePoint, h: Hypot)
    requires AtRest(n)
    ensures AtRest(Step(n, now, h)) && Step(n, now, h).config == n.config
    ensures AtRest(Settle(n, now)) && AtRest(Ready(n, now))
  {
    StepShaped(n, now, h);
    Lifecycle.StepOrderly(n, now, h);
    StepFrame(n, now, h);
  }

  /** Nothing but a step touches the queue of a node in operation. */
  lemma ArrivalAtRest(n: Node, a: Action, h: Hypot)
    requires AtRest(n) && Operational(n.config, a) && !a.Tick?
    ensures var m := Act(n, a, h);
            && m.config == n.config && m.queue == n.queue && m.started == n.started && m.gone == n.gone
            && m.nextId == n.nextId && m.activeType == n.activeType
            && (n.config.nodeType == DroneNode ==> m.request == n.request)
  {
  }

  lemma ActAtRest(n: Node, a: Action, h: Hypot)
    requires AtRest(n) && Operational(n.config, a)
    ensures AtRest(Act(n, a, h)) && Act(n, a, h).config == n.config
  {
    if a.Tick? {
      StepAtRest(n, a.now, h);
    } else {
      ArrivalAtRest(n, a, h);
    }
  }

  /**
   Queue-shape theorem: between the steps of every operational run a drone's queue is empty,
   [Idle], an emergency sequence followed by missions of its own role, or such missions alone; the
   station's is empty, [Idle], one vote, or an emergency sequence; and a nonempty queue's front has
   been entered and is the task type on record.
   */
  lemma {:induction false} QueueShapeOverRuns(config: SwarmConfig, battery: uint8, actions: seq<Action>, h: Hypot)
    requires OperationalRun(config, actions)
    ensures var n := Execute(Boot(config, battery), actions, h); AtRest(n) && n.config == config
    decreases |actions|
  {
    if actions != [] {
      var front := actions[..|actions| - 1];
      QueueShapeOverRuns(config, battery, front, h);
      ActAtRest(Execute(Boot(config, battery), front, h), actions[|actions| - 1], h);
    }
  }

  /**
   What a node reports as its task is what it does: in every reachable operational state with something
   queued the recorded type is that of the front task.  So a scout reports Idle, ScoutSearch, FailSafe or
   Landing, a striker Idle, GoToTarget, FailSafe or Landing, and the station Idle, Consensus, FailSafe or
   Landing.
   */
  lemma ReportedTask(config: SwarmConfig, battery: uint8, actions: seq<Action>, h: Hypot)
    requires OperationalRun(config, actions)
    ensures var n := Execute(Boot(config, battery), actions, h);
            n.queue != [] ==>
              && (n.activeType == IdleType <==> n.queue[0].task.Idle?)
              && (n.activeType == FailSafeType <==> n.queue[0].task.FailSafe?)
              && (n.activeType == LandingType <==> n.queue[0].task.Landing?)
              && (n.activeType == ConsensusType <==> n.queue[0].task.Voting?)
              && (n.activeType == ScoutSearchType <==> n.queue[0].task.ScoutSearch?)
              && (n.activeType == GoToTargetType <==> n.queue[0].task.GoToTarget?)
              && (n.activeType == ScoutSearchType ==> config.nodeType == DroneNode && config.role == Scout)
              && (n.activeType == GoToTargetType ==> config.nodeType == DroneNode && config.role == Striker)
              && (n.activeType == ConsensusType ==> config.nodeType == GcsNode)
  {
    QueueShapeOverRuns(config, battery, actions, h);
  }

  // ---------------------------------------------------------------------
  //  A drone moves only while a task flies it
  // ---------------------------------------------------------------------

  /** The task is on its way: a leg, a search not yet at its centre, or a descent. */
  predicate Flies(t: Task) {
    t.GoToTarget? || (t.ScoutSearch? && !t.search.reached) || t.Landing?
  }

  lemma RunStopsOrFlies(t: Task, now: TimePoint, f: Flight, h: Hypot)
    requires !t.Voting? && !IsFinished(t)
    ensures var (t', g) := RunTask(t, now, f, h); g.Still() || (Flies(t') && !IsFinished(t'))
  {
  }

  /** An entered front is not finished. */
  ghost predicate FrontOpen(n: Node) {
    n.started && n.queue != [] ==> !IsFinished(n.queue[0].task)
  }

  lemma PrepareOpens(n: Node, now: TimePoint)
    requires FrontOpen(n) && (n.queue != [] ==> !n.queue[0].task.Voting?)
    ensures FrontOpen(Prepare(n, now))
  {
  }

  lemma {:induction false} DrainKeepsOpen(n: Node)
    requires FrontOpen(n) && (n.started && n.queue != [] ==> !n.queue[0].task.Voting?)
    ensures FrontOpen(Drain(n).0)
    decreases |n.commands|
  {
    if n.commands != [] {
      DrainKeepsOpen(ProcessCommand(n.(commands := n.commands[1..]), n.commands[0]).0);
    }
  }

  lemma NoVoteInFront(n: Node)
    requires Shaped(n) && n.config.nodeType == DroneNode
    ensures n.queue != [] ==> !n.queue[0].task.Voting?
  {
  }

  lemma ReadyOpens(n: Node, now: TimePoint)
    requires AtRest(n) && FrontOpen(n) && n.config.nodeType == DroneNode
    ensures FrontOpen(Ready(n, now)) && !Ready(n, now).queue[0].task.Voting? && Ready(n, now).started
  {
    var placed := HandleEmergency(ApplyRequest(n));
    NoVoteInFront(n);
    PrepareOpens(placed, now);
    SettleShaped(n, now);
    SettleFrame(n, now);
    DrainShaped(Settle(n, now));
    DrainFrame(Settle(n, now));
    NoVoteInFront(Settle(n, now));
    NoVoteInFront(Drain(Settle(n, now)).0);
    DrainKeepsOpen(Settle(n, now));
    PrepareOpens(Drain(Settle(n, now)).0, now);
    PrepareFrame(Drain(Settle(n, now)).0, now);
    PrepareShaped(Drain(Settle(n, now)).0, now);
    NoVoteInFront(Ready(n, now));
  }

  /** Between steps the front is not finished, and the drone is at rest or in motion for that task. */
  ghost predicate MovesWithCause(n: Node) {
    FrontOpen(n) && (n.flight.Still() || (n.queue != [] && Flies(n.queue[0].task)))
  }

  lemma RunFrontMovesWithCause(n: Node, now: TimePoint, h: Hypot)
    requires Shaped(n) && n.config.nodeType == DroneNode && n.queue != [] && n.started && FrontOpen(n)
    ensures MovesWithCause(RunFront(n, now, h))
  {
    var (t, f) := RunTask(n.queue[0].task, now, n.flight, h);
    NoVoteInFront(n);
    RunStopsOrFlies(n.queue[0].task, now, n.flight, h);
    RunKeepsKind(n.queue[0].task, now, n.flight, h);
    if IsFinished(t) {
      var exited := ExitFront(RecordOutcome(Advanced(n, t, f), t));
      LeavesPosition(exited, now);
      PrepareOpens(exited, now);
    }
  }

  /**
   In every reachable operational state of a drone its velocity is zero unless the task in front is
   flying it, a leg or a search on its way or a descent; and the task in front is never a finished one.
   */
  lemma {:induction false} DroneMovesWithCause(config: SwarmConfig, battery: uint8, actions: seq<Action>, h: Hypot)
    requires config.nodeType == DroneNode && OperationalRun(config, actions)
    ensures MovesWithCause(Execute(Boot(config, battery), actions, h))
    decreases |actions|
  {
    if actions != [] {
      var front, a := actions[..|actions| - 1], actions[|actions| - 1];
      var n := Execute(Boot(config, battery), front, h);
      DroneMovesWithCause(config, battery, front, h);
      QueueShapeOverRuns(config, battery, front, h);
      if a.Tick? {
        TickMovesWithCause(n, a.now, h);
      } else {
        ArrivalAtRest(n, a, h);
      }
    }
  }

  lemma TickMovesWithCause(n: Node, now: TimePoint, h: Hypot)
    requires AtRest(n) && FrontOpen(n) && n.config.nodeType == DroneNode
    ensures MovesWithCause(Step(n, now, h))
  {
    StepShaped(n, now, h);
    SettleFrame(n, now);
    DrainFrame(Settle(n, now));
    PrepareFrame(Drain(Settle(n, now)).0, now);
    ReadyOpens(n, now);
    RunFrontMovesWithCause(Ready(n, now), now, h);
  }
}
