/** The ground station's controller and its mission loop as the objects the program keeps. */
module GcsControllers {
  import opened SwarmTypes
  import opened Engine
  import opened SwarmManagers
  import opened Controller
  import MissionLoop
  import PeerTable

  class GcsController {
    const manager: SwarmManager
    var state: State
    var nextTransactionId: uint32
    var activeTransactionId: uint32
    var pendingOrder: TaskOrder

    constructor (manager: SwarmManager)
      ensures this.manager == manager && Model() == New()
    {
      this.manager := manager;
      state, nextTransactionId, activeTransactionId := Resting, 1, 0;
      pendingOrder := TaskOrder(0, Scout, 0.0, 0.0);
    }

    ghost function Model(): Proposer
      reads this
    {
      Proposer(state, nextTransactionId, activeTransactionId, pendingOrder)
    }

    ghost predicate Valid()
      reads manager, manager.repr, manager.ownState, manager.peerTable
    {
      manager.Valid() && this !in manager.repr
    }

    /** Ask for a vote among the drones heard now; the order is prepared but not published. */
    method ProposeTask(role: DroneRole, x: real, y: real) returns (tx: uint32)
      requires Valid()
      modifies this, manager`pendingRequest, manager`sentConsensus, manager`node
      ensures Valid()
      ensures Model() == Propose(old(Model()), role, x, y) && tx == old(nextTransactionId)
      ensures var voters := PeerTable.OnlineDroneIds(old(manager.node).peers);
              manager.node == old(manager.node).(request := Some(Request(tx, voters)))
      ensures manager.sentConsensus
           == old(manager.sentConsensus) + [ProposalMessage(old(Model()), manager.config.droneId)]
    {
      activeTransactionId := nextTransactionId;
      nextTransactionId := AddWrapping(nextTransactionId, 1);
      var voters := manager.OnlineDroneIds();
      pendingOrder := TaskOrder(activeTransactionId, role, x, y);
      manager.PostRequest(activeTransactionId, voters);
      var proposal := ConsensusMessage(activeTransactionId, manager.config.droneId, Pending, activeTransactionId);
      manager.PublishConsensus(proposal);
      state := VotingState;
      return activeTransactionId;
    }

    /** Act on the recorded outcome of the active transaction. */
    method Step()
      requires Valid()
      modifies this`state, manager`sentOrders
      ensures Valid()
      ensures Model() == StepController(old(Model()), manager.node.outcome).0
      ensures var published := StepController(old(Model()), manager.node.outcome).1;
              manager.sentOrders == old(manager.sentOrders) + (if published.Some? then [published.value] else [])
    {
      if state != VotingState {
        return;
      }
      var result := manager.lastOutcome;
      if result.None? || result.value.tx != activeTransactionId {
        return;
      }
      if result.value.result == Committed {
        manager.PublishTaskAllocation(pendingOrder);
        state := TaskPublished;
        return;
      }
      if result.value.result == Aborted {
        state := Cancelled;
      }
    }

    method ConsumeResult()
      modifies this`state
      ensures Model() == Controller.ConsumeResult(old(Model()))
    {
      if state == TaskPublished || state == Cancelled {
        state := Resting;
      }
    }
  }

  /** The variables of the mission loop; one call of `Turn` is one iteration. */
  class MissionDriver {
    const gcs: GcsController
    const discoveryDeadline: TimePoint
    /** When the loop started. */
    ghost const began: TimePoint
    var nextTask: nat
    var proposalPending: bool
    var nextProposalTime: TimePoint
    ghost var log: seq<MissionLoop.LoopEvent>

    constructor (gcs: GcsController, now: TimePoint)
      ensures this.gcs == gcs && began == now && discoveryDeadline == began + MissionLoop.DISCOVERY_NS
      ensures gcs.Model() == New() ==> Model() == MissionLoop.Start()
    {
      this.gcs, began := gcs, now;
      discoveryDeadline := now + MissionLoop.DISCOVERY_NS;
      nextTask, proposalPending, nextProposalTime := 0, true, 0;
      log := [];
    }

    ghost function Model(): MissionLoop.Loop
      reads this, gcs
    {
      MissionLoop.Loop(gcs.Model(), nextTask, proposalPending, nextProposalTime, log)
    }

    ghost predicate Valid()
      reads gcs, gcs.manager, gcs.manager.repr, gcs.manager.ownState, gcs.manager.peerTable
    {
      gcs.Valid() && this !in gcs.manager.repr && discoveryDeadline == began + MissionLoop.DISCOVERY_NS
    }

    method Turn(now: TimePoint)
      requires Valid()
      modifies this, gcs, gcs.manager`pendingRequest, gcs.manager`sentConsensus, gcs.manager`sentOrders,
               gcs.manager`node
      ensures Valid()
      ensures Model() == MissionLoop.Iterate(old(Model()), began, now, old(gcs.manager.node).outcome)
      ensures gcs.manager.node == MissionLoop.Posted(old(Model()), began, now, old(gcs.manager.node))
      ensures gcs.manager.sentConsensus
           == old(gcs.manager.sentConsensus)
              + MissionLoop.Announced(old(Model()), began, now, gcs.manager.config.droneId)
      ensures gcs.manager.sentOrders
           == old(gcs.manager.sentOrders)
              + MissionLoop.Dispatched(old(Model()), began, now, old(gcs.manager.node).outcome)
    {
      ProposeIfDue(now);
      gcs.Step();
      if gcs.state == TaskPublished {
        Advance(true, now);
      } else if gcs.state == Cancelled {
        Advance(false, now);
      }
    }

    method ProposeIfDue(now: TimePoint)
      requires Valid()
      modifies this`proposalPending, this`log, gcs, gcs.manager`pendingRequest, gcs.manager`sentConsensus,
               gcs.manager`node
      ensures Valid()
      ensures Model() == MissionLoop.OfferIfDue(old(Model()), began, now)
      ensures gcs.manager.node == MissionLoop.Posted(old(Model()), began, now, old(gcs.manager.node))
      ensures gcs.manager.sentConsensus
           == old(gcs.manager.sentConsensus)
              + MissionLoop.Announced(old(Model()), began, now, gcs.manager.config.droneId)
    {
      if && proposalPending && nextTask < |MissionLoop.MISSIONS|
         && now >= discoveryDeadline && now >= nextProposalTime
      {
        var task := MissionLoop.MISSIONS[nextTask];
        var tx := gcs.ProposeTask(task.role, task.x, task.y);
        log := log + [MissionLoop.Offered(tx, task, now)];
        proposalPending := false;
      }
    }

    /** The result has been seen: on to the next mission, after a pause. */
    method Advance(committed: bool, now: TimePoint)
      modifies this`nextTask, this`proposalPending, this`nextProposalTime, this`log, gcs`state
      ensures Model() == MissionLoop.Loop(Controller.ConsumeResult(old(gcs.Model())), old(nextTask) + 1, true,
                                          now + MissionLoop.PAUSE_NS,
                                          old(log) + [MissionLoop.Settled(gcs.activeTransactionId, committed, now)])
    {
      nextTask := nextTask + 1;
      proposalPending := true;
      nextProposalTime := now + MissionLoop.PAUSE_NS;
      log := log + [MissionLoop.Settled(gcs.activeTransactionId, committed, now)];
      gcs.ConsumeResult();
    }
  }
}
