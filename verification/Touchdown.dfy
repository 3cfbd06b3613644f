/**
 What follows the emergency descent of a drone: the missions ordered during it, which are flown after
 touchdown whether or not the emergency is over.
 */
module Touchdown {
  import opened SwarmTypes
  import opened Motion
  import opened Tasks
  import opened Engine
  import opened CommandDrain
  import opened Emergency
  import Decision
  import QueueShape

  function TasksOf(queue: seq<Slot>): seq<Task> {
    seq(|queue|, i requires 0 <= i < |queue| => queue[i].task)
  }

  /** The commands that arrive during a run. */
  function CommandsOf(actions: seq<Action>): seq<Command>
    decreases |actions|
  {
    if actions == [] then []
    else
      var a := actions[|actions| - 1];
      CommandsOf(actions[..|actions| - 1]) + (if a.AddCommand? then [a.c] else [])
  }

  lemma {:induction false} OrderedTasksAppend(s: seq<Command>, t: seq<Command>, config: SwarmConfig)
    ensures OrderedTasks(s + t, config) == OrderedTasks(s, config) + OrderedTasks(t, config)
    decreases |s|
  {
    if s == [] {
      assert s + t == t;
    } else {
      assert (s + t)[1..] == s[1..] + t;
      OrderedTasksAppend(s[1..], t, config);
    }
  }

  lemma {:induction false} OrderedTasksAreMissions(commands: seq<Command>, config: SwarmConfig)
    ensures forall i | 0 <= i < |OrderedTasks(commands, config)| :: IsMission(OrderedTasks(commands, config)[i])
    ensures OrderedTasks(commands, config) != []
       <==> exists c :: c in commands && c.OrderCommand? && CreateTask(c.order, config).Some?
    decreases |commands|
  {
    if commands != [] {
      OrderedTasksAreMissions(commands[1..], config);
      if commands[0].OrderCommand? {
        AllocationFulfilsOrder(commands[0].order, config);
      }
      assert forall c :: c in commands <==> c == commands[0] || c in commands[1..];
    }
  }

  /** How much of the queue is still the emergency sequence. */
  function Descending(n: Node): nat {
    if n.queue == [] then 0 else if n.queue[0].task.FailSafe? then 2 else if n.queue[0].task.Landing? then 1 else 0
  }

  /** The emergency sequence in front, and behind it exactly these tasks. */
  ghost predicate Aboard(n: Node, tasks: seq<Task>) {
    && n.queue != [] && (n.queue[0].task.FailSafe? || n.queue[0].task.Landing?)
    && Descending(n) <= |n.queue| && TasksOf(n.queue[Descending(n)..]) == tasks
  }

  lemma TasksOfWaiting(queue: seq<Slot>, k: nat, tasks: seq<Task>, first: nat)
    requires k <= |queue|
    ensures TasksOf((queue + Waiting(tasks, first))[k..]) == TasksOf(queue[k..]) + tasks
  {
  }

  /** Up to its run, a step appends the tasks of the waiting orders. */
  lemma ReadyAppends(n: Node, now: TimePoint)
    requires DroneAtRest(n)
    requires Settle(n, now).queue != [] && !Settle(n, now).queue[0].task.Idle? && Settle(n, now).started
    ensures Ready(n, now).queue
         == Settle(n, now).queue + Waiting(OrderedTasks(n.commands, n.config), Settle(n, now).nextId)
  {
    QueueShape.SettleAtRest(n, now);
    SettleFrame(n, now);
    SettleTakesRequest(n, now);
    DrainAppends(Settle(n, now));
  }

  lemma DrainAppends(s: Node)
    requires NoCollector(s) && s.queue != [] && !s.queue[0].task.Idle? && s.started
    ensures Drain(s).0.queue == s.queue + Waiting(OrderedTasks(s.commands, s.config), s.nextId)
    ensures Drain(s).0.started
  {
    DrainMeetsSpec(s);
    DrainKeepsFront(s);
    assert s.queue + [] == s.queue;
  }

  lemma ReadyAboard(n: Node, now: TimePoint, tasks: seq<Task>)
    requires DroneAtRest(n) && Aboard(Settle(n, now), tasks) && Settle(n, now).started
    ensures Aboard(Ready(n, now), tasks + OrderedTasks(n.commands, n.config))
    ensures Ready(n, now).queue[0] == Settle(n, now).queue[0]
  {
    var s := Settle(n, now);
    ReadyAppends(n, now);
    TasksOfWaiting(s.queue, Descending(s), OrderedTasks(n.commands, n.config), s.nextId);
  }

  /** The run of a descent step leaves the tasks behind it, or hands over to the first of them. */
  lemma RunFrontAboard(n: Node, tasks: seq<Task>, now: TimePoint, h: Hypot)
    requires DroneAtRest(n) && Aboard(n, tasks) && n.started
    ensures var m := RunFront(n, now, h);
            if n.queue[0].task.Landing? && IsFinished(RunTask(n.queue[0].task, now, n.flight, h).0)
            then HandedOver(m, tasks, now) else Aboard(m, tasks)
  {
    var (t, f) := RunTask(n.queue[0].task, now, n.flight, h);
    var ran := Advanced(n, t, f);
    if IsFinished(t) {
      var exited := ExitFront(RecordOutcome(ran, t));
      assert exited.queue == n.queue[1..];
      assert n.queue[0].task.FailSafe? ==> n.queue[1..][1..] == n.queue[2..];
    } else {
      assert ran.queue[Descending(n)..] == n.queue[Descending(n)..];
    }
  }

  /** The queue is these missions, the first of them entered. */
  ghost predicate HandedOver(m: Node, tasks: seq<Task>, now: TimePoint) {
    && |m.queue| == |tasks|
    && (tasks != [] ==> m.started && m.queue[0].task == EnterTask(tasks[0], now, m.flight).0)
    && (forall i | 1 <= i < |tasks| :: m.queue[i].task == tasks[i])
  }

  // ---------------------------------------------------------------------
  //  Whole runs
  // ---------------------------------------------------------------------

  lemma AlarmAboard(n: Node, now: TimePoint, h: Hypot)
    requires DroneAtRest(n) && CheckEmergency(n) && !n.inEmergency && n.flight.z >= 0.0
    ensures Aboard(Step(n, now, h), OrderedTasks(n.commands, n.config)) && Step(n, now, h).commands == []
  {
    SettleOnAlarm(n, now);
    QueueShape.StepAtRest(n, now, h);
    assert Aboard(Settle(n, now), []);
    ReadyAboard(n, now, []);
    assert [] + OrderedTasks(n.commands, n.config) == OrderedTasks(n.commands, n.config);
    RunFrontAboard(Ready(n, now), OrderedTasks(n.commands, n.config), now, h);
    StepTakesAll(n, now, h);
  }

  lemma StepAboard(n: Node, tasks: seq<Task>, now: TimePoint, h: Hypot)
    requires DroneAtRest(n) && Aboard(n, tasks) && NoRisingEdge(n)
    ensures var all := tasks + OrderedTasks(n.commands, n.config);
            && Step(n, now, h).commands == []
            && (if Lands(n, now, h) then HandedOver(Step(n, now, h), all, now) else Aboard(Step(n, now, h), all))
  {
    SettleUndisturbed(n, now);
    QueueShape.StepAtRest(n, now, h);
    ReadyAboard(n, now, tasks);
    RunFrontAboard(Ready(n, now), tasks + OrderedTasks(n.commands, n.config), now, h);
    StepTakesAll(n, now, h);
  }

  /** The missions behind the emergency sequence and those still among the commands are `all`. */
  ghost predicate Carries(n: Node, all: seq<Task>) {
    exists tasks :: Aboard(n, tasks) && tasks + OrderedTasks(n.commands, n.config) == all
  }

  lemma TickCarries(n: Node, all: seq<Task>, now: TimePoint, h: Hypot)
    requires DroneAtRest(n) && Carries(n, all) && NoRisingEdge(n)
    ensures if Lands(n, now, h) then HandedOver(Step(n, now, h), all, now) else Carries(Step(n, now, h), all)
  {
    var tasks :| Aboard(n, tasks) && tasks + OrderedTasks(n.commands, n.config) == all;
    StepAboard(n, tasks, now, h);
    assert all + OrderedTasks([], n.config) == all;
  }

  lemma ArrivalCarries(n: Node, all: seq<Task>, a: Action, h: Hypot)
    requires DroneAtRest(n) && Carries(n, all) && DroneAction(a) && !a.Tick?
    ensures Carries(Act(n, a, h), all + OrderedTasks(ArrivingIn(a), n.config))
  {
    var tasks :| Aboard(n, tasks) && tasks + OrderedTasks(n.commands, n.config) == all;
    var m, arrived := Act(n, a, h), ArrivingIn(a);
    QueueShape.ArrivalAtRest(n, a, h);
    ArrivalCommands(n, a, h);
    OrderedTasksAppend(n.commands, arrived, n.config);
    assert Aboard(m, tasks);
    assert tasks + (OrderedTasks(n.commands, n.config) + OrderedTasks(arrived, n.config))
        == tasks + OrderedTasks(n.commands, n.config) + OrderedTasks(arrived, n.config);
  }

  lemma ArrivalCommands(n: Node, a: Action, h: Hypot)
    requires !a.Tick?
    ensures Act(n, a, h).commands == n.commands + ArrivingIn(a)
  {
  }

  /** What one action adds to the commands that arrived. */
  function ArrivingIn(a: Action): seq<Command> {
    if a.AddCommand? then [a.c] else []
  }

  lemma OrdersSnoc(all: seq<Task>, front: seq<Action>, a: Action, config: SwarmConfig)
    ensures all + OrderedTasks(CommandsOf(front + [a]), config)
         == all + OrderedTasks(CommandsOf(front), config) + OrderedTasks(ArrivingIn(a), config)
  {
    assert (front + [a])[..|front|] == front;
    OrderedTasksAppend(CommandsOf(front), ArrivingIn(a), config);
  }

  /** The drone is at rest and carries these missions. */
  ghost predicate Holds(m: Node, config: SwarmConfig, all: seq<Task>) {
    DroneAtRest(m) && m.config == config && Carries(m, all)
  }

  lemma {:induction false} DescentCarries(n: Node, all: seq<Task>, actions: seq<Action>, h: Hypot)
    requires Holds(n, n.config, all)
    requires Decision.Undisturbed(n, actions, h) && Airborne(n, actions, h)
    ensures Holds(Execute(n, actions, h), n.config, all + OrderedTasks(CommandsOf(actions), n.config))
    decreases |actions|
  {
    if actions == [] {
      assert all + OrderedTasks([], n.config) == all;
    } else {
      var front, a := actions[..|actions| - 1], actions[|actions| - 1];
      DescentCarries(n, all, front, h);
      CarriesOn(Execute(n, front, h), n.config, all + OrderedTasks(CommandsOf(front), n.config), a, h);
      OrdersSnoc(all, front, a, n.config);
      assert actions == front + [a];
    }
  }

  lemma CarriesOn(n: Node, config: SwarmConfig, all: seq<Task>, a: Action, h: Hypot)
    requires Holds(n, config, all) && DroneAction(a)
    requires a.Tick? ==> NoRisingEdge(n) && !Lands(n, a.now, h)
    ensures Holds(Act(n, a, h), config, all + OrderedTasks(ArrivingIn(a), config))
  {
    QueueShape.ActAtRest(n, a, h);
    if a.Tick? {
      TickCarries(n, all, a.now, h);
      assert all + OrderedTasks([], config) == all;
    } else {
      ArrivalCarries(n, all, a, h);
    }
  }

  /** An order for this drone has been among the commands. */
  ghost predicate Ordered(commands: seq<Command>, config: SwarmConfig) {
    exists c :: c in commands && c.OrderCommand? && CreateTask(c.order, config).Some?
  }

  lemma HandedOverFront(m: Node, tasks: seq<Task>, now: TimePoint)
    requires HandedOver(m, tasks, now) && forall i | 0 <= i < |tasks| :: IsMission(tasks[i])
    ensures (m.queue != [] && m.started && IsMission(m.queue[0].task)) <==> tasks != []
    ensures m.queue == [] <==> tasks == []
  {
    if tasks != [] {
      EnterKeepsKind(tasks[0], now, m.flight);
    }
  }

  /**
   Touchdown.  From the alarm of a drone over any run without a second one, at the step that lands:
   the queue becomes exactly the missions ordered of this drone since the alarm, in arrival order,
   the first of them entered.  So the drone goes on to fly a mission if and only if one was ordered,
   and does so even while the emergency persists.
   */
  lemma MissionsFollowTouchdown(n: Node, alarm: TimePoint, actions: seq<Action>, now: TimePoint, h: Hypot)
    requires DroneAtRest(n) && CheckEmergency(n) && !n.inEmergency && n.flight.z >= 0.0
    requires Decision.Undisturbed(Step(n, alarm, h), actions, h) && Airborne(Step(n, alarm, h), actions, h)
    requires var m := Execute(Step(n, alarm, h), actions, h); NoRisingEdge(m) && Lands(m, now, h)
    ensures var m := Execute(Step(n, alarm, h), actions, h);
            var landed, heard := Step(m, now, h), n.commands + CommandsOf(actions);
            && HandedOver(landed, OrderedTasks(heard, n.config), now)
            && ((landed.queue != [] && landed.started && IsMission(landed.queue[0].task)) <==> Ordered(heard, n.config))
            && landed.inEmergency == CheckEmergency(m)
  {
    var n1, heard := Step(n, alarm, h), n.commands + CommandsOf(actions);
    AlarmAboard(n, alarm, h);
    QueueShape.StepAtRest(n, alarm, h);
    var first := OrderedTasks(n.commands, n.config);
    assert first + OrderedTasks([], n.config) == first;
    DescentCarries(n1, first, actions, h);
    OrderedTasksAppend(n.commands, CommandsOf(actions), n.config);
    LandingHandsOver(Execute(n1, actions, h), OrderedTasks(heard, n.config), now, h);
    OrderedTasksAreMissions(heard, n.config);
    HandedOverFront(Step(Execute(n1, actions, h), now, h), OrderedTasks(heard, n.config), now);
  }

  lemma LandingHandsOver(m: Node, all: seq<Task>, now: TimePoint, h: Hypot)
    requires DroneAtRest(m) && Carries(m, all) && NoRisingEdge(m) && Lands(m, now, h)
    ensures HandedOver(Step(m, now, h), all, now) && Step(m, now, h).inEmergency == CheckEmergency(m)
  {
    TickCarries(m, all, now, h);
    AlarmFlag(m, now, h);
    SettleUndisturbed(m, now);
  }
}
