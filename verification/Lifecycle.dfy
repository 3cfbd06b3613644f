/**
 Over every run of a node: each task instance is entered once, run or given votes only after that,
 and exited at most once; no instance is ever lost or doubled; and the engine's flags agree with
 its queue.
 */
module Lifecycle {
  import opened SwarmTypes
  import opened Motion
  import opened Tasks
  import opened Engine

  // ---------------------------------------------------------------------
  //  Life-cycle traces
  // ---------------------------------------------------------------------

  ghost predicate InProgress(calls: seq<Call>) {
    && calls != [] && calls[0] == Entered
    && (forall i | 1 <= i < |calls| :: calls[i] == Voted || calls[i] == Ran)
  }

  ghost predicate Complete(calls: seq<Call>) {
    calls != [] && calls[|calls| - 1] == Exited && InProgress(calls[..|calls| - 1])
  }

  /** How an instance may have left the queue: never begun, cut short, or properly exited. */
  ghost predicate Departed(s: Slot) {
    || s.calls == []
    || InProgress(s.calls)
    || (Complete(s.calls) && (IsFinished(s.task) || s.task.Idle?))
  }

  /** Only the front has been entered, exactly when `started` says so, and its type is on record. */
  ghost predicate FrontAgrees(n: Node) {
    && (n.queue == [] ==> !n.started)
    && (n.queue != [] && n.started ==>
          InProgress(n.queue[0].calls) && n.activeType == TypeOf(n.queue[0].task))
    && (n.queue != [] && !n.started ==> n.queue[0].calls == [])
    && (forall i | 1 <= i < |n.queue| :: n.queue[i].calls == [])
  }

  /** Departed and queued instances together are all instances ever created, in creation order. */
  ghost predicate Conserved(n: Node) {
    && |n.gone| + |n.queue| == n.nextId
    && (forall i | 0 <= i < |n.gone| :: n.gone[i].id == i)
    && (forall i | 0 <= i < |n.queue| :: n.queue[i].id == |n.gone| + i)
  }

  /** A task that must not wait directly behind Idle, which an order can displace at any moment. */
  predicate Delicate(t: Task) {
    t.Voting? || t.Idle?
  }

  ghost predicate NothingDelicateBehindIdle(queue: seq<Slot>) {
    forall i | 0 <= i < |queue| - 1 :: queue[i].task.Idle? ==> !Delicate(queue[i + 1].task)
  }

  /** The life-cycle property: legal traces, flags that agree with them, nothing lost or doubled. */
  ghost predicate LifeCycle(n: Node) {
    && FrontAgrees(n)
    && Conserved(n)
    && (forall i | 0 <= i < |n.gone| :: Departed(n.gone[i]))
  }

  /** Orders displace Idle on drones only. */
  ghost predicate Orderly(n: Node) {
    LifeCycle(n) && (n.config.nodeType == DroneNode ==> NothingDelicateBehindIdle(n.queue))
  }

  // ---------------------------------------------------------------------
  //  Every part of a step keeps order
  // ---------------------------------------------------------------------

  /** On a drone, push_task puts neither a vote collector nor another Idle directly behind an Idle task. */
  predicate Pushable(n: Node, t: Task) {
    n.config.nodeType == DroneNode && Delicate(t) && n.queue != [] ==> !n.queue[|n.queue| - 1].task.Idle?
  }

  lemma PushOrderly(n: Node, t: Task)
    requires Orderly(n) && Pushable(n, t)
    ensures Orderly(Push(n, t))
  {
  }

  lemma ClearOrderly(n: Node)
    requires Orderly(n)
    ensures Orderly(Clear(n).(started := false))
  {
  }

  lemma ExitFrontOrderly(n: Node)
    requires Orderly(n) && n.queue != [] && n.started
    requires IsFinished(n.queue[0].task) || n.queue[0].task.Idle?
    ensures Orderly(ExitFront(n))
  {
  }

  lemma HandleEmergencyOrderly(n: Node)
    requires Orderly(n)
    ensures Orderly(HandleEmergency(n))
  {
    ClearOrderly(n);
    var cleared := Clear(n).(inEmergency := true, started := false);
    PushOrderly(cleared, NewFailSafe());
    PushOrderly(Push(cleared, NewFailSafe()), NewLanding());
  }

  lemma StartActiveOrderly(n: Node, now: TimePoint)
    requires Orderly(n) && !n.started
    ensures Orderly(StartActive(n, now)) && (n.queue != [] ==> StartActive(n, now).started)
  {
  }

  lemma PrepareOrderly(n: Node, now: TimePoint)
    requires Orderly(n)
    ensures Orderly(Prepare(n, now))
  {
    if n.queue == [] {
      PushOrderly(n, Idle);
    }
    if !Fill(n).started {
      StartActiveOrderly(Fill(n), now);
    }
  }

  /** While commands are processed the front is entered, or it is neither a vote collector nor Idle. */
  ghost predicate Receptive(n: Node) {
    Orderly(n) && n.queue != [] && (n.started || !Delicate(n.queue[0].task))
  }

  lemma ProcessCommandOrderly(n: Node, c: Command)
    requires Receptive(n)
    ensures Receptive(ProcessCommand(n, c).0)
  {
    match c
    case ConsensusCommand(m) =>
    case OrderCommand(order) =>
      var t := CreateTask(order, n.config);
      if t.Some? {
        if n.queue[0].task.Idle? {
          ExitFrontOrderly(n);
          PushOrderly(ExitFront(n), t.value);
        } else {
          PushOrderly(n, t.value);
        }
      }
  }

  lemma {:induction false} DrainOrderly(n: Node)
    requires Receptive(n)
    ensures Receptive(Drain(n).0)
    decreases |n.commands|
  {
    if n.commands != [] {
      var rest := n.(commands := n.commands[1..]);
      ProcessCommandOrderly(rest, n.commands[0]);
      DrainOrderly(ProcessCommand(rest, n.commands[0]).0);
    }
  }

  lemma ConcludeOrderly(n: Node, now: TimePoint)
    requires Orderly(n) && n.queue != [] && n.started
    ensures Orderly(Conclude(n, now))
    ensures Conclude(n, now).queue != [] ==> Conclude(n, now).started
  {
    var t := n.queue[0].task;
    if IsFinished(t) {
      var exited := ExitFront(RecordOutcome(n, t));
      ExitFrontOrderly(RecordOutcome(n, t));
      ClearOrderly(exited);
      StartActiveOrderly(exited, now);
    }
  }

  lemma RunFrontOrderly(n: Node, now: TimePoint, h: Hypot)
    requires Orderly(n) && n.queue != [] && n.started
    ensures Orderly(RunFront(n, now, h))
    ensures RunFront(n, now, h).queue != [] ==> RunFront(n, now, h).started
  {
    RunKeepsKind(n.queue[0].task, now, n.flight, h);
    var (t, f) := RunTask(n.queue[0].task, now, n.flight, h);
    ConcludeOrderly(Advanced(n, t, f), now);
  }

  lemma SettleOrderly(n: Node, now: TimePoint)
    requires Orderly(n)
    ensures Receptive(Settle(n, now))
  {
    HandleEmergencyOrderly(ApplyRequest(n));
    PrepareOrderly(HandleEmergency(ApplyRequest(n)), now);
  }

  lemma StepOrderly(n: Node, now: TimePoint, h: Hypot)
    requires Orderly(n)
    ensures Orderly(Settle(n, now)) && Receptive(Settle(n, now)) && Orderly(Ready(n, now))
    ensures Orderly(Step(n, now, h))
    ensures Step(n, now, h).queue != [] ==> Step(n, now, h).started
  {
    var settled := Settle(n, now);
    SettleOrderly(n, now);
    DrainOrderly(settled);
    PrepareOrderly(Drain(settled).0, now);
    RunFrontOrderly(Ready(n, now), now, h);
  }

  lemma ActOrderly(n: Node, a: Action, h: Hypot)
    requires Orderly(n) && (a.PushTask? ==> Pushable(n, a.t))
    ensures Orderly(Act(n, a, h))
  {
    match a
    case Tick(now) => StepOrderly(n, now, h);
    case PushTask(t) => PushOrderly(n, t);
    case _ =>
  }

  /** Every push_task of the run respects Pushable. */
  ghost predicate CarefulPushes(n: Node, actions: seq<Action>, h: Hypot)
    decreases |actions|
  {
    actions != [] ==>
      var front, a := actions[..|actions| - 1], actions[|actions| - 1];
      CarefulPushes(n, front, h) && (a.PushTask? ==> Pushable(Execute(n, front, h), a.t))
  }

  /**
   Life-cycle theorem.  After any sequence of steps, commands, vote requests, pushed tasks, peer
   traffic and battery changes: every instance that ever existed is in exactly one place; those in
   the queue behind the front have received no call; the front has been entered exactly when the
   engine's flag says so; and every departed instance received a prefix of
   on_enter (on_vote | run)* on_exit, the whole of it only when it was finished or idle.
   */
  lemma {:induction false} LifecycleOverRuns(config: SwarmConfig, battery: uint8, actions: seq<Action>, h: Hypot)
    requires CarefulPushes(Boot(config, battery), actions, h)
    ensures Orderly(Execute(Boot(config, battery), actions, h))
    decreases |actions|
  {
    if actions != [] {
      var front := actions[..|actions| - 1];
      LifecycleOverRuns(config, battery, front, h);
      ActOrderly(Execute(Boot(config, battery), front, h), actions[|actions| - 1], h);
    }
  }

  /** At the end of a step a nonempty queue has an entered front. */
  lemma FrontIsEnteredAfterStep(config: SwarmConfig, battery: uint8, actions: seq<Action>, now: TimePoint, h: Hypot)
    requires CarefulPushes(Boot(config, battery), actions, h)
    ensures var n := Step(Execute(Boot(config, battery), actions, h), now, h);
            n.queue != [] ==> && InProgress(n.queue[0].calls)
                              && n.started
                              && n.activeType == TypeOf(n.queue[0].task)
  {
    LifecycleOverRuns(config, battery, actions, h);
    StepOrderly(Execute(Boot(config, battery), actions, h), now, h);
  }

  /**
   No vote is delivered early: whenever, in any run, a vote reaches its collector, that collector
   has already been entered.
   */
  lemma VotesReachEnteredCollectors(config: SwarmConfig, battery: uint8, actions: seq<Action>, now: TimePoint,
                                    h: Hypot, handled: nat)
    requires CarefulPushes(Boot(config, battery), actions, h)
    requires var settled := Settle(Execute(Boot(config, battery), actions, h), now);
             handled <= |settled.commands|
    ensures var settled := Settle(Execute(Boot(config, battery), actions, h), now);
            var n := DrainPart(settled, handled);
            n.queue != [] && n.queue[0].task.Voting? ==> n.started && InProgress(n.queue[0].calls)
  {
    var before := Execute(Boot(config, battery), actions, h);
    LifecycleOverRuns(config, battery, actions, h);
    StepOrderly(before, now, h);
    DrainPartReceptive(Settle(before, now), handled);
  }

  /** The state after the first `handled` commands of a drain. */
  function DrainPart(n: Node, handled: nat): Node
    requires handled <= |n.commands|
    decreases handled
  {
    if handled == 0 then n
    else DrainPart(ProcessCommand(n.(commands := n.commands[1..]), n.commands[0]).0, handled - 1)
  }

  /**
   The condition on push_task is needed.  With a collector directly behind Idle, an order that
   displaces Idle lets the next vote reach the collector before on_enter.
   */
  lemma VoteBehindIdleArrivesEarly(n: Node, order: TaskOrder, m: ConsensusMessage)
    requires |n.queue| == 2 && n.queue[0].task.Idle? && n.queue[1].task.Voting? && n.queue[1].calls == []
    requires CreateTask(order, n.config).Some?
    requires m.sender != n.config.droneId && m.vote != Pending && m.tx == n.queue[1].task.ballot.tx
    ensures var after := ProcessConsensus(ProcessOrder(n, order), m).0;
            after.queue != [] && after.queue[0].id == n.queue[1].id && after.queue[0].calls == [Voted]
  {
    var displaced := ProcessOrder(n, order);
    assert displaced.queue[0] == n.queue[1];
  }

  /** With a second Idle behind Idle, two orders make an instance exit that was never entered. */
  lemma IdleBehindIdleExitsUnentered(n: Node, first: TaskOrder, second: TaskOrder)
    requires |n.queue| == 2 && n.queue[0].task.Idle? && n.queue[1].task.Idle? && n.queue[1].calls == []
    requires CreateTask(first, n.config).Some? && CreateTask(second, n.config).Some?
    ensures var after := ProcessOrder(ProcessOrder(n, first), second);
            after.gone != [] && after.gone[|after.gone| - 1] == Slot(n.queue[1].id, Idle, [Exited])
  {
    var displaced := ProcessOrder(n, first);
    assert displaced.queue[0] == n.queue[1];
    assert ProcessOrder(displaced, second).gone == displaced.gone + [Called(n.queue[1], Idle, Exited)];
    assert [] + [Exited] == [Exited];
  }

  lemma {:induction false} DrainPartReceptive(n: Node, handled: nat)
    requires Receptive(n) && handled <= |n.commands|
    ensures Receptive(DrainPart(n, handled))
    decreases handled
  {
    if handled > 0 {
      var rest := n.(commands := n.commands[1..]);
      ProcessCommandOrderly(rest, n.commands[0]);
      DrainPartReceptive(ProcessCommand(rest, n.commands[0]).0, handled - 1);
    }
  }

  // ---------------------------------------------------------------------
  //  Exactly which pushes behind a resting Idle are safe
  // ---------------------------------------------------------------------

  /** The ground station needs no care: no order concerns it, so nothing displaces Idle there. */
  lemma {:induction false} StationPushesAreCareful(n: Node, actions: seq<Action>, h: Hypot)
    requires n.config.nodeType == GcsNode
    ensures CarefulPushes(n, actions, h) && Execute(n, actions, h).config == n.config
    decreases |actions|
  {
    if actions != [] {
      var front, a := actions[..|actions| - 1], actions[|actions| - 1];
      StationPushesAreCareful(n, front, h);
      ActKeepsConfig(Execute(n, front, h), a, h);
    }
  }

  /** Life cycle on the ground station: every run, with any pushes. */
  lemma StationLifecycle(config: SwarmConfig, battery: uint8, actions: seq<Action>, h: Hypot)
    requires config.nodeType == GcsNode
    ensures LifeCycle(Execute(Boot(config, battery), actions, h))
  {
    StationPushesAreCareful(Boot(config, battery), actions, h);
    LifecycleOverRuns(config, battery, actions, h);
  }

  lemma {:induction false} OrderlyRun(n: Node, actions: seq<Action>, h: Hypot)
    requires Orderly(n) && CarefulPushes(n, actions, h)
    ensures Orderly(Execute(n, actions, h))
    decreases |actions|
  {
    if actions != [] {
      OrderlyRun(n, actions[..|actions| - 1], h);
      ActOrderly(Execute(n, actions[..|actions| - 1], h), actions[|actions| - 1], h);
    }
  }

  /** The trace of an instance that was called before it was entered. */
  predicate Unentered(calls: seq<Call>) {
    calls != [] && calls[0] != Entered
  }

  /** Such an instance is in front, or has left. */
  ghost predicate Marred(n: Node) {
    || (n.queue != [] && Unentered(n.queue[0].calls))
    || (exists i :: 0 <= i < |n.gone| && Unentered(n.gone[i].calls))
  }

  lemma MarredIsIllegal(n: Node)
    requires Marred(n)
    ensures !LifeCycle(n)
  {
  }

  lemma PrepareStaysMarred(n: Node, now: TimePoint)
    requires Marred(n)
    ensures Marred(Prepare(n, now))
  {
  }

  lemma ConcludeStaysMarred(n: Node, now: TimePoint)
    requires Marred(n) && n.queue != []
    ensures Marred(Conclude(n, now))
  {
    var m := Conclude(n, now);
    assert forall i | 0 <= i < |n.gone| :: i < |m.gone| && m.gone[i] == n.gone[i];
    if IsFinished(n.queue[0].task) && Unentered(n.queue[0].calls) {
      assert m.gone[|n.gone|].calls == n.queue[0].calls + [Exited];
    }
  }

  lemma RunFrontStaysMarred(n: Node, now: TimePoint, h: Hypot)
    requires Marred(n) && n.queue != []
    ensures Marred(RunFront(n, now, h))
  {
    var (t, f) := RunTask(n.queue[0].task, now, n.flight, h);
    ConcludeStaysMarred(Advanced(n, t, f), now);
  }

  /** A drone between steps with nothing to do, nothing waiting and no emergency about to begin. */
  ghost predicate RestingIdle(n: Node) {
    && n.config.nodeType == DroneNode && Orderly(n)
    && |n.queue| == 1 && n.queue[0].task.Idle? && n.started
    && n.request == None && n.commands == [] && NoRisingEdge(n)
  }

  function AnyOrder(config: SwarmConfig): TaskOrder {
    TaskOrder(0, config.role, 0.0, 0.0)
  }

  /** What mars t behind Idle: an order displaces Idle; then a vote for t, or a second order when t is Idle. */
  function Spoiler(n: Node, t: Task): Command {
    match t
    case Voting(b) => ConsensusCommand(ConsensusMessage(b.tx, (n.config.droneId + 1) % 256, Ack, 0))
    case _ => OrderCommand(AnyOrder(n.config))
  }

  function FailingRun(n: Node, t: Task, now: TimePoint): seq<Action> {
    [PushTask(t), AddCommand(OrderCommand(AnyOrder(n.config))), AddCommand(Spoiler(n, t)), Tick(now)]
  }

  lemma TwoCommands(n: Node, first: Command, second: Command)
    requires n.commands == [first, second]
    ensures Drain(n).0 == ProcessCommand(ProcessCommand(n.(commands := [second]), first).0.(commands := []), second).0
  {
    assert n.commands[1..] == [second] && [second][1..] == [];
    var n1 := ProcessCommand(n.(commands := [second]), first).0;
    assert n1.commands == [second];
    assert Drain(n1).0 == Drain(ProcessCommand(n1.(commands := []), second).0).0;
  }

  lemma SpoiledDrain(n: Node, t: Task)
    requires n.config.nodeType == DroneNode && Delicate(t)
    requires |n.queue| == 2 && n.queue[0].task.Idle? && n.queue[1].task == t && n.queue[1].calls == []
    requires n.commands == [OrderCommand(AnyOrder(n.config)), Spoiler(n, t)]
    ensures Marred(Drain(n).0) && Drain(n).0.queue != []
  {
    var order := AnyOrder(n.config);
    var n0 := n.(commands := [Spoiler(n, t)]);
    TwoCommands(n, OrderCommand(order), Spoiler(n, t));
    if t.Voting? {
      VoteBehindIdleArrivesEarly(n0, order, Spoiler(n, t).message);
    } else {
      IdleBehindIdleExitsUnentered(n0, order, order);
    }
  }

  /** The state in which the failing run takes its step. */
  function Spoiled(n: Node, t: Task): Node {
    Push(n, t).(commands := [OrderCommand(AnyOrder(n.config)), Spoiler(n, t)])
  }

  lemma SpoiledStep(n: Node, t: Task, now: TimePoint, h: Hypot)
    requires RestingIdle(n) && Delicate(t)
    ensures !LifeCycle(Step(Spoiled(n, t), now, h))
  {
    var m := Spoiled(n, t);
    SettleBehindIdle(m, now);
    SpoiledDrain(Settle(m, now), t);
    PrepareStaysMarred(Drain(Settle(m, now)).0, now);
    RunFrontStaysMarred(Ready(m, now), now, h);
    MarredIsIllegal(Step(m, now, h));
  }

  lemma SettleBehindIdle(m: Node, now: TimePoint)
    requires m.request == None && NoRisingEdge(m) && m.started && m.queue != []
    ensures Settle(m, now) == m.(inEmergency := CheckEmergency(m))
  {
  }

  lemma {:induction false} NoPushesAreCareful(n: Node, actions: seq<Action>, h: Hypot)
    requires forall i | 0 <= i < |actions| :: !actions[i].PushTask?
    ensures CarefulPushes(n, actions, h)
    decreases |actions|
  {
    if actions != [] {
      NoPushesAreCareful(n, actions[..|actions| - 1], h);
    }
  }

  lemma TwoArrivals(n: Node, first: Command, second: Command, h: Hypot)
    requires n.commands == []
    ensures Execute(n, [AddCommand(first), AddCommand(second)], h) == n.(commands := [first, second])
  {
    var run := [AddCommand(first), AddCommand(second)];
    assert run[..1][..0] == [];
    assert Execute(n, run[..1], h) == n.(commands := [first]);
  }

  lemma FailingRunSteps(n: Node, t: Task, now: TimePoint, h: Hypot)
    requires n.commands == []
    ensures Execute(Push(n, t), FailingRun(n, t, now)[1..], h) == Step(Spoiled(n, t), now, h)
  {
    var first, second := OrderCommand(AnyOrder(n.config)), Spoiler(n, t);
    TwoArrivals(Push(n, t), first, second, h);
    ExecuteSnoc(Push(n, t), [AddCommand(first), AddCommand(second)], Tick(now), h);
    assert FailingRun(n, t, now)[1..] == [AddCommand(first), AddCommand(second)] + [Tick(now)];
  }

  lemma PushAndArrivals(n: Node, t: Task, first: Command, second: Command, h: Hypot)
    requires n.commands == []
    ensures Execute(n, [PushTask(t), AddCommand(first), AddCommand(second)], h)
         == Push(n, t).(commands := [first, second])
  {
    var run := [PushTask(t), AddCommand(first), AddCommand(second)];
    assert run[..2][..1] == run[..1] && run[..1][..0] == [];
    assert Execute(n, run[..1], h) == Push(n, t);
    assert Execute(n, run[..2], h) == Push(n, t).(commands := [first]);
  }

  /** The failing run, from every resting drone and for every delicate task. */
  lemma DelicatePushFails(n: Node, t: Task, now: TimePoint, h: Hypot)
    requires RestingIdle(n) && Delicate(t)
    ensures !LifeCycle(Execute(n, FailingRun(n, t, now), h))
    ensures !LifeCycle(Execute(Push(n, t), FailingRun(n, t, now)[1..], h))
  {
    var first, second := OrderCommand(AnyOrder(n.config)), Spoiler(n, t);
    var arrivals := [PushTask(t), AddCommand(first), AddCommand(second)];
    FailingRunSteps(n, t, now, h);
    SpoiledStep(n, t, now, h);
    PushAndArrivals(n, t, first, second, h);
    ExecuteSnoc(n, arrivals, Tick(now), h);
    assert FailingRun(n, t, now) == arrivals + [Tick(now)];
  }

  ghost predicate SafeToPush(n: Node, t: Task, h: Hypot) {
    forall actions | CarefulPushes(Push(n, t), actions, h) ::
      LifeCycle(Execute(Push(n, t), actions, h))
  }

  /**
   The exact condition.  Behind the Idle of a resting drone, a pushed task leaves every continuation
   with a legal life cycle if and only if it is neither a vote collector nor Idle.
   */
  lemma PushBehindIdleIsSafeIff(n: Node, t: Task, h: Hypot)
    requires RestingIdle(n)
    ensures SafeToPush(n, t, h) <==> !Delicate(t)
  {
    if Delicate(t) {
      DelicatePushFails(n, t, 0, h);
      NoPushesAreCareful(Push(n, t), FailingRun(n, t, 0)[1..], h);
    } else {
      PushOrderly(n, t);
      forall actions | CarefulPushes(Push(n, t), actions, h)
        ensures LifeCycle(Execute(Push(n, t), actions, h))
      {
        OrderlyRun(Push(n, t), actions, h);
      }
    }
  }
}
