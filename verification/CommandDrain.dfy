/**
 process_pending_commands against a functional specification: which tasks the queued orders become,
 and which votes the queued proposals draw.
 */
module CommandDrain {
  import opened SwarmTypes
  import opened Tasks
  import opened Engine
  import Lifecycle
  import QueueShape

  /** The tasks of the matching orders, in arrival order. */
  function OrderedTasks(commands: seq<Command>, config: SwarmConfig): seq<Task> {
    if commands == [] then []
    else
      var c := commands[0];
      (if c.OrderCommand? && CreateTask(c.order, config).Some? then [CreateTask(c.order, config).value] else [])
      + OrderedTasks(commands[1..], config)
  }

  /** A proposal another node sent. */
  predicate ForeignProposal(c: Command, config: SwarmConfig) {
    c.ConsensusCommand? && c.message.vote == Pending && c.message.sender != config.droneId
  }

  /** The answers to the foreign proposals, in arrival order. */
  function Answers(n: Node, commands: seq<Command>): seq<ConsensusMessage> {
    if commands == [] then []
    else
      (if n.config.nodeType == DroneNode && !n.config.faultSilent && ForeignProposal(commands[0], n.config)
       then [ConsensusMessage(commands[0].message.tx, n.config.droneId, OwnVote(n), commands[0].message.seqNum)]
       else [])
      + Answers(n, commands[1..])
  }

  /** Task instances numbered from `first`, none of them called yet. */
  function Waiting(tasks: seq<Task>, first: nat): seq<Slot> {
    seq(|tasks|, i requires 0 <= i < |tasks| => Slot(first + i, tasks[i], []))
  }

  /** What is left of the queue once Idle has been displaced. */
  function Kept(queue: seq<Slot>): seq<Slot> {
    if queue != [] && queue[0].task.Idle? then queue[1..] else queue
  }

  /** The queue after these tasks have been ordered; a leading Idle goes only if there are any. */
  function Extended(queue: seq<Slot>, tasks: seq<Task>, first: nat): seq<Slot> {
    (if tasks == [] then queue else Kept(queue)) + Waiting(tasks, first)
  }

  lemma ExtendedCons(queue: seq<Slot>, t: Task, rest: seq<Task>, first: nat)
    requires var next := Kept(queue) + [Slot(first, t, [])]; Kept(next) == next
    ensures Extended(queue, [t] + rest, first) == Extended(Kept(queue) + [Slot(first, t, [])], rest, first + 1)
  {
  }

  /** The queue a drain leaves behind. */
  function DrainedQueue(n: Node): seq<Slot> {
    Extended(n.queue, OrderedTasks(n.commands, n.config), n.nextId)
  }

  /** A front the votes in the command queue cannot touch, with no second Idle behind an Idle. */
  ghost predicate NoCollector(n: Node) {
    && (n.queue != [] ==> !n.queue[0].task.Voting?)
    && Lifecycle.NothingDelicateBehindIdle(n.queue)
  }

  lemma OrderAccepted(n: Node, order: TaskOrder, t: Task)
    requires NoCollector(n) && CreateTask(order, n.config) == Some(t)
    ensures ProcessOrder(n, order).queue == Kept(n.queue) + [Slot(n.nextId, t, [])]
    ensures NoCollector(ProcessOrder(n, order))
    ensures Kept(ProcessOrder(n, order).queue) == ProcessOrder(n, order).queue
    ensures ProcessOrder(n, order).nextId == n.nextId + 1
  {
  }

  lemma OrderDrained(n: Node, order: TaskOrder, rest: seq<Command>)
    requires NoCollector(n) && n.commands == rest
    ensures NoCollector(ProcessOrder(n, order))
    ensures DrainedQueue(ProcessOrder(n, order)) == DrainedQueue(n.(commands := [OrderCommand(order)] + rest))
  {
    var before := n.(commands := [OrderCommand(order)] + rest);
    assert before.commands[0] == OrderCommand(order) && before.commands[1..] == rest;
    var tail := OrderedTasks(rest, n.config);
    match CreateTask(order, n.config)
    case None =>
      assert OrderedTasks(before.commands, n.config) == [] + tail == tail;
    case Some(t) =>
      OrderAccepted(n, order, t);
      assert OrderedTasks(before.commands, n.config) == [t] + tail;
      ExtendedCons(n.queue, t, tail, n.nextId);
  }

  lemma MessageDrained(n: Node, m: ConsensusMessage, rest: seq<Command>)
    requires NoCollector(n) && n.commands == rest
    ensures ProcessConsensus(n, m).0 == n
    ensures DrainedQueue(n) == DrainedQueue(n.(commands := [ConsensusCommand(m)] + rest))
    ensures Answers(n, [ConsensusCommand(m)] + rest) == ProcessConsensus(n, m).1 + Answers(n, rest)
  {
    var commands := [ConsensusCommand(m)] + rest;
    assert commands[0] == ConsensusCommand(m) && commands[1..] == rest;
    assert OrderedTasks(commands, n.config) == [] + OrderedTasks(rest, n.config) == OrderedTasks(rest, n.config);
  }

  lemma OrderUnwinds(n: Node, order: TaskOrder, rest: seq<Command>)
    requires n.commands == [OrderCommand(order)] + rest
    ensures var n1 := ProcessOrder(n.(commands := rest), order);
            && Drain(n) == Drain(n1) && Answers(n, n.commands) == Answers(n1, rest)
            && n1.commands == rest && n1.flight == n.flight
  {
    assert n.commands[1..] == rest;
    var n1 := ProcessOrder(n.(commands := rest), order);
    SameAnswers(n1, n, rest);
    assert [] + Answers(n, rest) == Answers(n, rest) && [] + Drain(n1).1 == Drain(n1).1;
  }

  /**
   Drain theorem.  With no vote in progress the command FIFO is emptied; the queue becomes its old
   self, minus a leading Idle exactly when some order is for this node's role, followed by those
   orders' tasks in arrival order; and the published messages are exactly one vote per foreign
   proposal, in order, each decided by the battery (none from a station or a silenced drone).
   */
  lemma {:induction false} DrainMeetsSpec(n: Node)
    requires NoCollector(n)
    ensures var (after, published) := Drain(n);
            && after.commands == []
            && after.queue == DrainedQueue(n)
            && published == Answers(n, n.commands)
            && after.flight == n.flight
    decreases |n.commands|
  {
    if n.commands == [] {
      assert Waiting([], n.nextId) == [] && n.queue + [] == n.queue;
    } else {
      var c, rest := n.commands[0], n.commands[1..];
      var n0 := n.(commands := rest);
      assert n.commands == [c] + rest;
      match c
      case OrderCommand(order) =>
        OrderDrained(n0, order, rest);
        OrderUnwinds(n, order, rest);
        DrainMeetsSpec(ProcessOrder(n0, order));
      case ConsensusCommand(m) =>
        MessageDrained(n0, m, rest);
        DrainMeetsSpec(n0);
        SameAnswers(n0, n, rest);
        SameAnswers(n0, n, n.commands);
    }
  }

  lemma {:induction false} SameAnswers(n: Node, m: Node, commands: seq<Command>)
    requires n.config == m.config && n.flight.battery == m.flight.battery
    ensures Answers(n, commands) == Answers(m, commands)
    decreases |commands|
  {
    if commands != [] {
      SameAnswers(n, m, commands[1..]);
    }
  }

  /** Every answer is to a proposal that was waiting, and tells the truth about the battery. */
  lemma {:induction false} AnswersAreJustified(n: Node, commands: seq<Command>, vote: ConsensusMessage)
    requires vote in Answers(n, commands)
    ensures vote.sender == n.config.droneId && n.config.nodeType == DroneNode
    ensures vote.vote == Ack <==> n.flight.battery >= CRITICAL_BATTERY
    ensures vote.vote == Nack <==> n.flight.battery < CRITICAL_BATTERY
    ensures exists c :: c in commands && ForeignProposal(c, n.config) && c.message.tx == vote.tx
    decreases |commands|
  {
    var rest := Answers(n, commands[1..]);
    if vote in rest {
      AnswersAreJustified(n, commands[1..], vote);
      var c :| c in commands[1..] && ForeignProposal(c, n.config) && c.message.tx == vote.tx;
      assert c in commands;
    } else {
      assert commands[0] in commands;
    }
  }

  // ---------------------------------------------------------------------
  //  A drone's step up to its run
  // ---------------------------------------------------------------------

  ghost predicate DroneAtRest(n: Node) {
    n.config.nodeType == DroneNode && QueueShape.AtRest(n)
  }

  /** Commands only add missions behind an entered front that is not Idle. */
  lemma ReadyKeepsFront(n: Node, now: TimePoint)
    requires DroneAtRest(n)
    requires Settle(n, now).queue != [] && !Settle(n, now).queue[0].task.Idle? && Settle(n, now).started
    ensures var s, r := Settle(n, now), Ready(n, now);
            && r.queue != [] && s.queue <= r.queue && r.flight == s.flight
            && DroneAtRest(r)
            && r.nextId >= s.nextId
  {
    var s := Settle(n, now);
    QueueShape.SettleAtRest(n, now);
    SettleFrame(n, now);
    DrainMeetsSpec(s);
    DrainFrame(s);
    QueueShape.StepAtRest(n, now, (dx: real, dy: real) => 0.0);
    DrainKeepsFront(s);
  }
}
