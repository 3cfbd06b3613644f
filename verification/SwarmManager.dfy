/**
 The coordinator of one node as the object the program keeps: a deque of task objects that share
 the node's flight state, a FIFO of commands, and the flags of the Task Engine.  The ghost field
 `node` is the value this object stands for; each method is proved to move it as the function on
 node values of the same name does, and `Valid` ties it to every field the program has.
 */
module SwarmManagers {
  import opened SwarmTypes
  import opened Motion
  import opened Tasks
  import opened TaskObjects
  import opened Engine
  import opened PeerManagers
  import PeerTable

  class SwarmManager {
    const config: SwarmConfig
    /** std::hypot */
    const hypot: Hypot
    const ownState: DroneState
    const peerTable: PeerManager

    var taskQueue: seq<TaskRef>
    var commandQueue: seq<Command>
    var activeTaskStarted: bool
    var inEmergency: bool
    var activeTaskType: TaskType
    var pendingRequest: Option<Request>
    var lastOutcome: Option<VoteOutcome>
    /** What the publishers were given so far. */
    var sentConsensus: seq<ConsensusMessage>
    var sentOrders: seq<TaskOrder>

    ghost var node: Node
    /** The task objects, and perhaps some that have left. */
    ghost var repr: set<object>

    ghost predicate Valid()
      reads this, repr, ownState, peerTable
    {
      && FieldsMatch()
      && ownState.Model() == node.flight
      && peerTable.peers == node.peers
      && QueueMatches()
    }

    ghost predicate FieldsMatch()
      reads this
    {
      && node.config == config
      && node.started == activeTaskStarted
      && node.inEmergency == inEmergency
      && node.activeType == activeTaskType
      && node.commands == commandQueue
      && node.request == pendingRequest
      && node.outcome == lastOutcome
    }

    /** Task objects are distinct, are none of the node's other objects, and fly on its own state. */
    ghost predicate QueueMatches()
      reads this, repr
    {
      && |node.queue| == |taskQueue|
      && peerTable.heartbeatTimeoutMs == PeerTable.HEARTBEAT_TIMEOUT_MS
      && this !in repr && ownState !in repr && peerTable !in repr
      && (forall i | 0 <= i < |taskQueue| :: taskQueue[i].Obj() in repr)
      && (forall i, j | 0 <= i < j < |taskQueue| :: taskQueue[i].Obj() != taskQueue[j].Obj())
      && (forall i | 0 <= i < |taskQueue| :: taskQueue[i].Shares(ownState))
      && (forall i | 0 <= i < |taskQueue| :: taskQueue[i].Model() == node.queue[i].task)
    }

    /** init() on a new object, with the battery the environment gives it. */
    constructor (config: SwarmConfig, battery: uint8, hypot: Hypot)
      ensures Valid() && fresh(repr) && fresh(ownState) && fresh(peerTable) && this.hypot == hypot
      ensures node == Boot(config, battery)
      ensures sentConsensus == [] && sentOrders == []
    {
      this.config, this.hypot := config, hypot;
      ownState := new DroneState();
      peerTable := new PeerManager();
      taskQueue, commandQueue := [], [];
      activeTaskStarted, inEmergency, activeTaskType := false, false, InitType;
      pendingRequest, lastOutcome := None, None;
      sentConsensus, sentOrders := [], [];
      node, repr := Boot(config, battery), {};
      new;
      ownState.battery := battery;
    }

    // -------------------------------------------------------------------
    //  Calls from other threads
    // -------------------------------------------------------------------

    method EnqueueCommand(c: Command)
      requires Valid()
      modifies this`commandQueue, this`node
      ensures Valid() && node == Act(old(node), AddCommand(c), hypot)
    {
      commandQueue := commandQueue + [c];
      node := node.(commands := node.commands + [c]);
    }

    method PostRequest(tx: uint32, voters: seq<uint8>)
      requires Valid()
      modifies this`pendingRequest, this`node
      ensures Valid() && node == old(node).(request := Some(Request(tx, voters)))
    {
      pendingRequest := Some(Request(tx, voters));
      node := node.(request := Some(Request(tx, voters)));
    }

    method OnHeartbeatReceived(hb: Heartbeat, now: TimePoint)
      requires Valid()
      modifies peerTable, this`node
      ensures Valid() && node == Act(old(node), HeartbeatArrives(hb, now), hypot)
    {
      if hb.droneId == config.droneId {
        return;
      }
      peerTable.OnHeartbeatReceived(hb, now);
      node := node.(peers := peerTable.peers);
    }

    method OnTelemetryReceived(t: Telemetry, now: TimePoint) returns (accepted: bool)
      requires Valid()
      modifies peerTable, this`node
      ensures Valid() && node == Act(old(node), TelemetryArrives(t, now), hypot)
      ensures accepted <==> t.droneId != config.droneId && PeerTable.OnTelemetry(old(node).peers, t, now).accepted
    {
      if t.droneId == config.droneId {
        return false;
      }
      var newStream;
      accepted, newStream := peerTable.OnTelemetryReceived(t, now);
      node := node.(peers := peerTable.peers);
    }

    method UpdatePeerList(now: TimePoint)
      requires Valid()
      modifies peerTable, this`node
      ensures Valid() && node == Act(old(node), RefreshPeers(now), hypot)
    {
      peerTable.RefreshStatus(now);
      node := node.(peers := peerTable.peers);
    }

    method OnlineDroneIds() returns (ids: seq<uint8>)
      requires Valid()
      ensures ids == PeerTable.OnlineDroneIds(node.peers)
    {
      ids := peerTable.CollectOnlineDroneIds();
    }

    method PublishConsensus(m: ConsensusMessage)
      requires Valid()
      modifies this`sentConsensus
      ensures Valid() && sentConsensus == old(sentConsensus) + [m]
    {
      sentConsensus := sentConsensus + [m];
    }

    method PublishTaskAllocation(order: TaskOrder)
      requires Valid()
      modifies this`sentOrders
      ensures Valid() && sentOrders == old(sentOrders) + [order]
    {
      sentOrders := sentOrders + [order];
    }

    // -------------------------------------------------------------------
    //  Queue primitives
    // -------------------------------------------------------------------

    method PushBack(t: TaskRef)
      requires Valid() && t.Obj() !in repr && t.Obj() != this && t.Obj() != ownState && t.Obj() != peerTable
      requires t.Shares(ownState)
      modifies this`taskQueue, this`node, this`repr
      ensures Valid() && node == Push(old(node), t.Model())
      ensures repr == old(repr) + {t.Obj()}
    {
      ghost var before := taskQueue;
      taskQueue := taskQueue + [t];
      repr := repr + {t.Obj()};
      node := Push(node, t.Model());
      assert forall i | 0 <= i < |before| :: taskQueue[i] == before[i];
      assert taskQueue[|before|] == t;
    }

    method ClearQueue()
      requires Valid()
      modifies this`taskQueue, this`node
      ensures Valid() && node == Clear(old(node))
    {
      taskQueue := [];
      node := Clear(node);
    }

    /** on_exit() and pop_front(). */
    method PopFront()
      requires Valid() && taskQueue != []
      modifies this`taskQueue, this`activeTaskStarted, this`node
      ensures Valid() && node == ExitFront(old(node))
    {
      ghost var before := taskQueue;
      taskQueue := taskQueue[1..];
      activeTaskStarted := false;
      node := ExitFront(node);
      assert forall i | 0 <= i < |taskQueue| :: taskQueue[i] == before[i + 1];
    }

    // -------------------------------------------------------------------
    //  The parts of a step
    // -------------------------------------------------------------------

    method ApplyPendingConsensusRequest()
      requires Valid()
      modifies this`taskQueue, this`activeTaskStarted, this`pendingRequest, this`node, this`repr
      ensures Valid() && node == ApplyRequest(old(node)) && fresh(repr - old(repr))
    {
      if pendingRequest.None? {
        return;
      }
      var request := pendingRequest.value;
      ClearQueue();
      pendingRequest, activeTaskStarted := None, false;
      node := node.(request := None, started := false);
      var voting := new ConsensusTask(request.tx, request.voters);
      PushBack(VotingRef(voting));
    }

    method EmergencyDetected() returns (detected: bool)
      requires Valid()
      ensures detected == CheckEmergency(node)
    {
      if ownState.battery < CRITICAL_BATTERY {
        return true;
      }
      var lost := peerTable.CountWithStatus(PeerTable.Offline);
      PeerTable.LostMeansCounted(peerTable.peers);
      return lost > 0;
    }

    method PlaceEmergencyTasks()
      requires Valid()
      modifies this`taskQueue, this`activeTaskStarted, this`inEmergency, this`node, this`repr
      ensures Valid() && node == PlaceEmergency(old(node)) && fresh(repr - old(repr))
    {
      if inEmergency {
        return;
      }
      ClearQueue();
      inEmergency, activeTaskStarted := true, false;
      node := node.(inEmergency := true, started := false);
      var failSafe := new FailSafeTask(ownState);
      PushBack(FailSafeRef(failSafe));
      PushLanding();
    }

    method PushLanding()
      requires Valid()
      modifies this`taskQueue, this`node, this`repr
      ensures Valid() && node == Push(old(node), NewLanding()) && fresh(repr - old(repr))
    {
      var landing := new LandingTask(ownState);
      PushBack(LandingRef(landing));
    }

    method StartActiveTask(now: TimePoint)
      requires Valid()
      modifies this`activeTaskStarted, this`activeTaskType, this`node, repr, ownState
      ensures Valid() && node == StartActive(old(node), now)
    {
      if taskQueue == [] {
        return;
      }
      var front := taskQueue[0];
      front.OnEnter(now, ownState);
      activeTaskStarted := true;
      activeTaskType := front.Type();
      node := Activate(node, front.Model(), ownState.Model());
    }

    method PrepareQueue(now: TimePoint)
      requires Valid()
      modifies this`taskQueue, this`activeTaskStarted, this`activeTaskType, this`node, this`repr, repr, ownState
      ensures Valid() && node == Prepare(old(node), now) && fresh(repr - old(repr))
    {
      if taskQueue == [] {
        var idle := new IdleTask(ownState);
        PushBack(IdleRef(idle));
        activeTaskStarted := false;
        node := node.(started := false);
      }
      if !activeTaskStarted {
        StartActiveTask(now);
      }
    }

    method CastVote(proposal: ConsensusMessage)
      requires Valid()
      modifies this`sentConsensus
      ensures Valid()
      ensures sentConsensus == old(sentConsensus) + VoteOnProposal(node, proposal)
    {
      if config.faultSilent {
        return;
      }
      var decision := if ownState.battery < CRITICAL_BATTERY then Nack else Ack;
      sentConsensus := sentConsensus + [ConsensusMessage(proposal.tx, config.droneId, decision, proposal.seqNum)];
    }

    method HandleConsensus(m: ConsensusMessage)
      requires Valid()
      modifies this`sentConsensus, this`node, repr
      ensures Valid() && node == ProcessConsensus(old(node), m).0
      ensures sentConsensus == old(sentConsensus) + ProcessConsensus(old(node), m).1
    {
      if m.sender == config.droneId {
        return;
      }
      if m.vote == Pending {
        if config.nodeType == DroneNode {
          CastVote(m);
        }
        return;
      }
      if taskQueue != [] && taskQueue[0].VotingRef? && taskQueue[0].voting.tx == m.tx {
        taskQueue[0].voting.OnVote(m.sender, m.vote);
        node := DeliverVote(node, m);
      }
    }

    method HandleOrder(order: TaskOrder)
      requires Valid()
      modifies this`taskQueue, this`activeTaskStarted, this`node, this`repr
      ensures Valid() && node == ProcessOrder(old(node), order) && fresh(repr - old(repr))
    {
      var created := AllocateTask(order, config, ownState);
      if created.None? {
        return;
      }
      EndIdle();
      PushBack(created.value);
    }

    /** An Idle front makes way for work. */
    method EndIdle()
      requires Valid()
      modifies this`taskQueue, this`activeTaskStarted, this`node
      ensures Valid() && repr == old(repr)
      ensures node == if old(node).queue != [] && old(node).queue[0].task.Idle? then ExitFront(old(node)) else old(node)
    {
      if taskQueue != [] && taskQueue[0].Type() == IdleType {
        PopFront();
      }
    }

    method HandleCommand(c: Command)
      requires Valid()
      modifies this`taskQueue, this`activeTaskStarted, this`sentConsensus, this`node, this`repr, repr
      ensures Valid() && node == ProcessCommand(old(node), c).0 && fresh(repr - old(repr))
      ensures sentConsensus == old(sentConsensus) + ProcessCommand(old(node), c).1
    {
      match c {
        case ConsensusCommand(m) => HandleConsensus(m);
        case OrderCommand(order) => HandleOrder(order);
      }
    }

    /** The head of the FIFO; `published` is what it made this node send. */
    method ProcessNextCommand() returns (ghost published: seq<ConsensusMessage>)
      requires Valid() && commandQueue != []
      modifies this`taskQueue, this`commandQueue, this`activeTaskStarted, this`sentConsensus, this`node, this`repr, repr
      ensures Valid() && fresh(repr - old(repr)) && |commandQueue| < |old(commandQueue)|
      ensures (node, published)
           == ProcessCommand(old(node).(commands := old(node).commands[1..]), old(node).commands[0])
      ensures sentConsensus == old(sentConsensus) + published
    {
      var command := commandQueue[0];
      commandQueue := commandQueue[1..];
      node := node.(commands := node.commands[1..]);
      published := ProcessCommand(node, command).1;
      HandleCommand(command);
    }

    method ProcessPendingCommands()
      requires Valid()
      modifies this`taskQueue, this`commandQueue, this`activeTaskStarted, this`sentConsensus, this`node, this`repr, repr
      ensures Valid() && node == Drain(old(node)).0 && fresh(repr - old(repr))
      ensures sentConsensus == old(sentConsensus) + Drain(old(node)).1
    {
      while commandQueue != []
        invariant Valid() && fresh(repr - old(repr))
        invariant Drain(node).0 == Drain(old(node)).0
        invariant sentConsensus + Drain(node).1 == old(sentConsensus) + Drain(old(node)).1
        decreases |commandQueue|
      {
        ghost var sent, all := sentConsensus, Drain(node).1;
        ghost var one := ProcessNextCommand();
        assert sent + all == sent + one + Drain(node).1;
      }
    }

    /** run() on the front task, and what follows when it is finished. */
    method RunActiveTask(now: TimePoint)
      requires Valid() && taskQueue != []
      modifies this`taskQueue, this`activeTaskStarted, this`activeTaskType, this`lastOutcome, this`node, repr, ownState
      ensures Valid() && node == RunFront(old(node), now, hypot)
    {
      var active := taskQueue[0];
      active.Run(now, hypot, ownState);
      node := Advanced(node, active.Model(), ownState.Model());
      ConcludeActiveTask(now);
    }

    method ConcludeActiveTask(now: TimePoint)
      requires Valid() && taskQueue != []
      modifies this`taskQueue, this`activeTaskStarted, this`activeTaskType, this`lastOutcome, this`node, repr, ownState
      ensures Valid() && node == Conclude(old(node), now)
    {
      var active := taskQueue[0];
      if !active.Done() {
        return;
      }
      var cancelled := active.VotingRef? && active.voting.result == Aborted;
      if active.VotingRef? {
        lastOutcome := Some(VoteOutcome(active.voting.tx, active.voting.result, active.voting.cancelledByTimeout));
        node := RecordOutcome(node, active.Model());
      }
      PopFront();
      if cancelled {
        ClearQueue();
        return;
      }
      StartActiveTask(now);
    }

    /** The tasks of an emergency take the queue over when it begins. */
    method UpdateEmergency()
      requires Valid()
      modifies this`taskQueue, this`activeTaskStarted, this`inEmergency, this`node, this`repr
      ensures Valid() && node == HandleEmergency(old(node)) && fresh(repr - old(repr))
    {
      var emergency := EmergencyDetected();
      if emergency {
        PlaceEmergencyTasks();
      } else {
        inEmergency := false;
        node := node.(inEmergency := false);
      }
    }

    method SettleQueue(now: TimePoint)
      requires Valid()
      modifies this, repr, ownState
      ensures Valid() && node == Settle(old(node), now) && fresh(repr - old(repr))
      ensures sentConsensus == old(sentConsensus) && sentOrders == old(sentOrders)
    {
      ApplyPendingConsensusRequest();
      UpdateEmergency();
      PrepareQueue(now);
    }

    method GetReady(now: TimePoint)
      requires Valid()
      modifies this, repr, ownState
      ensures Valid() && taskQueue != [] && node == Ready(old(node), now) && fresh(repr - old(repr))
      ensures sentConsensus == old(sentConsensus) + Published(old(node), now)
      ensures sentOrders == old(sentOrders)
    {
      SettleQueue(now);
      ProcessPendingCommands();
      PrepareQueue(now);
    }

    /** One turn of the Task Engine. */
    method TaskEngineStep(now: TimePoint)
      requires Valid()
      modifies this, repr, ownState
      ensures Valid() && node == Step(old(node), now, hypot) && fresh(repr - old(repr))
      ensures sentConsensus == old(sentConsensus) + Published(old(node), now)
      ensures sentOrders == old(sentOrders)
    {
      GetReady(now);
      RunActiveTask(now);
    }
  }
}
