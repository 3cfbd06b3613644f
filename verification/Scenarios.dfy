/**
 Runs of the system that do happen: an order without a vote, a vote by a drone nobody asked, and a
 drone that changes its mind.
 */
module Scenarios {
  import opened SwarmTypes
  import opened Motion
  import opened Engine
  import opened Swarm
  import Ballots
  import Controller
  import Decision
  import MissionLoop
  import PeerTable
  import QueueShape
  import SwarmSafety
  import VotePhases

  // ---------------------------------------------------------------------
  //  A drone that hears a proposal
  // ---------------------------------------------------------------------

  /** A drone that answers proposals, between steps and with nothing waiting. */
  ghost predicate Listening(n: Node, id: uint8) {
    && n.config.droneId == id && n.config.nodeType == DroneNode && !n.config.faultSilent
    && QueueShape.AtRest(n) && n.commands == []
  }

  ghost predicate Listens(s: System, id: uint8) {
    id in s.drones && Listening(s.drones[id], id)
  }

  /** Event e is a proposal of somebody other than drone id. */
  ghost predicate ProposalFor(e: Event, id: uint8) {
    e.Proposed? && e.message.vote == Pending && e.message.sender != id
  }

  /** The vote of drone id on the proposal e, at this battery level. */
  function Answer(e: Event, id: uint8, battery: uint8): Event
    requires e.Proposed?
  {
    var vote := if battery < CRITICAL_BATTERY then Nack else Ack;
    VotePublished(ConsensusMessage(e.message.tx, id, vote, e.message.seqNum), battery)
  }

  lemma ListenerAnswers(n: Node, id: uint8, e: Event, now: TimePoint, h: Hypot)
    requires Listening(n, id) && ProposalFor(e, id)
    ensures var heard := n.(commands := [ConsensusCommand(e.message)]);
            && Published(heard, now) == [Answer(e, id, n.flight.battery).message]
            && Listening(Step(heard, now, h), id)
            && Step(heard, now, h).flight.battery == n.flight.battery && Step(heard, now, h).config == n.config
  {
    var heard := n.(commands := [ConsensusCommand(e.message)]);
    assert QueueShape.AtRest(heard);
    SwarmSafety.PublishedAreAnswers(heard, now);
    assert heard.commands[1..] == [];
    QueueShape.StepAtRest(heard, now, h);
    StepFrame(heard, now, h);
    StepTakesAll(heard, now, h);
  }

  /** The message of an event arrives and the drone takes a step. */
  function HearAt(id: uint8, event: nat, now: TimePoint): seq<Move> {
    [DeliverToDrone(id, event), DroneActs(id, Tick(now))]
  }

  /** The drone has answered, and nothing else has happened. */
  ghost predicate Heard(s: System, s': System, id: uint8, vote: Event) {
    && id in s.drones && id in s'.drones && s'.station == s.station && s'.proposer == s.proposer
    && s'.drones == s.drones[id := s'.drones[id]] && Listens(s', id)
    && s'.drones[id].flight.battery == s.drones[id].flight.battery && s'.drones[id].config == s.drones[id].config
    && s'.history == s.history + [vote]
  }

  lemma MessageArrives(s: System, id: uint8, event: nat, h: Hypot)
    requires id in s.drones && OnNetwork(s, event)
    ensures var n := s.drones[id];
            Apply(s, DeliverToDrone(id, event), h)
            == s.(drones := s.drones[id := n.(commands := n.commands + [Deliverable(s.history[event]).value])])
  {
  }

  lemma DroneTicks(s: System, id: uint8, now: TimePoint, h: Hypot)
    requires id in s.drones
    ensures Apply(s, DroneActs(id, Tick(now)), h)
         == s.(drones := s.drones[id := Step(s.drones[id], now, h)],
               history := s.history + VoteEvents(s.drones[id].flight.battery, Published(s.drones[id], now)))
  {
  }

  /** The drone with this one message waiting. */
  function WithMessage(n: Node, m: ConsensusMessage): Node {
    n.(commands := [ConsensusCommand(m)])
  }

  lemma HearRun(s: System, id: uint8, event: nat, now: TimePoint, h: Hypot)
    requires Listens(s, id) && event < |s.history| && s.history[event].Proposed?
    ensures var heard := WithMessage(s.drones[id], s.history[event].message);
            Run(s, HearAt(id, event, now), h)
            == s.(drones := s.drones[id := Step(heard, now, h)],
                  history := s.history + VoteEvents(heard.flight.battery, Published(heard, now)))
  {
    var heard := WithMessage(s.drones[id], s.history[event].message);
    var delivered := s.(drones := s.drones[id := heard]);
    MissionLoop.RunTwo(s, DeliverToDrone(id, event), DroneActs(id, Tick(now)), h);
    ProposalArrives(s, id, event, h);
    DroneTicks(delivered, id, now, h);
    assert delivered.drones[id := Step(heard, now, h)] == s.drones[id := Step(heard, now, h)];
  }

  lemma ProposalArrives(s: System, id: uint8, event: nat, h: Hypot)
    requires Listens(s, id) && event < |s.history| && s.history[event].Proposed?
    ensures Apply(s, DeliverToDrone(id, event), h)
         == s.(drones := s.drones[id := WithMessage(s.drones[id], s.history[event].message)])
  {
    MessageArrives(s, id, event, h);
    assert s.drones[id].commands + [ConsensusCommand(s.history[event].message)]
        == [ConsensusCommand(s.history[event].message)];
  }

  lemma DroneHears(s: System, id: uint8, event: nat, now: TimePoint, h: Hypot) returns (s': System)
    requires Listens(s, id) && event < |s.history| && ProposalFor(s.history[event], id)
    ensures s' == Run(s, HearAt(id, event, now), h)
    ensures Heard(s, s', id, Answer(s.history[event], id, s.drones[id].flight.battery))
  {
    var n, e := s.drones[id], s.history[event];
    var heard, vote := WithMessage(n, e.message), Answer(e, id, n.flight.battery);
    HearRun(s, id, event, now, h);
    ListenerAnswers(n, id, e, now, h);
    assert VoteEvents(n.flight.battery, [vote.message]) == [vote];
    s' := s.(drones := s.drones[id := Step(heard, now, h)], history := s.history + [vote]);
  }

  // ---------------------------------------------------------------------
  //  A drone changes its mind
  // ---------------------------------------------------------------------

  function Restarted(s: System, id: uint8, battery: uint8): System
    requires id in s.drones
  {
    s.(drones := s.drones[id := Boot(s.drones[id].config, battery)])
  }

  lemma DroneRestartsListening(s: System, id: uint8, battery: uint8, h: Hypot)
    requires Listens(s, id)
    ensures Run(s, [DroneRestarts(id, battery)], h) == Restarted(s, id, battery)
    ensures Listens(Restarted(s, id, battery), id)
  {
    MissionLoop.RunOne(s, DroneRestarts(id, battery), h);
  }

  /** The drone restarts with another battery, and the retained proposal reaches it again. */
  function RestartAndHear(id: uint8, battery: uint8, event: nat, now: TimePoint): seq<Move> {
    [DroneRestarts(id, battery)] + HearAt(id, event, now)
  }

  lemma RestartedHears(s: System, id: uint8, battery: uint8, event: nat, now: TimePoint, h: Hypot) returns (s': System)
    requires Listens(s, id) && event < |s.history| && ProposalFor(s.history[event], id)
    ensures s' == Run(s, RestartAndHear(id, battery, event, now), h)
    ensures Heard(Restarted(s, id, battery), s', id, Answer(s.history[event], id, battery))
  {
    DroneRestartsListening(s, id, battery, h);
    MissionLoop.RunAppends(s, [DroneRestarts(id, battery)], HearAt(id, event, now), h);
    s' := DroneHears(Restarted(s, id, battery), id, event, now, h);
  }

  lemma HearsBeforeAndAfterRestart(s: System, id: uint8, event: nat, low: uint8, now: TimePoint, later: TimePoint,
                                   h: Hypot)
      returns (s': System)
    requires Listens(s, id) && event < |s.history| && ProposalFor(s.history[event], id)
    ensures s' == Run(Run(s, HearAt(id, event, now), h), RestartAndHear(id, low, event, later), h)
    ensures s'.history == s.history + [Answer(s.history[event], id, s.drones[id].flight.battery)]
                          + [Answer(s.history[event], id, low)]
  {
    var s1 := DroneHears(s, id, event, now, h);
    s' := RestartedHears(s1, id, low, event, later, h);
  }

  /**
   A drone may answer one proposal both ways.  In any state a drone that is fit, idle between steps
   and not silenced publishes an ACK when a proposal reaches it, and a NACK when it has restarted with
   a low battery and the retained proposal reaches it again.
   */
  lemma DronesMayChangeTheirMind(s: System, id: uint8, event: nat, low: uint8, now: TimePoint, later: TimePoint,
                                 h: Hypot)
    requires Listens(s, id) && event < |s.history| && ProposalFor(s.history[event], id)
    requires low < CRITICAL_BATTERY <= s.drones[id].flight.battery
    ensures var m, fit := s.history[event].message, s.drones[id].flight.battery;
            Run(s, HearAt(id, event, now) + RestartAndHear(id, low, event, later), h).history
            == s.history + [VotePublished(ConsensusMessage(m.tx, id, Ack, m.seqNum), fit)]
                         + [VotePublished(ConsensusMessage(m.tx, id, Nack, m.seqNum), low)]
  {
    var s' := HearsBeforeAndAfterRestart(s, id, event, low, now, later, h);
    MissionLoop.RunAppends(s, HearAt(id, event, now), RestartAndHear(id, low, event, later), h);
  }

  // ---------------------------------------------------------------------
  //  An order that nobody voted for
  // ---------------------------------------------------------------------

  lemma FirstProposal(s0: System, role: DroneRole, x: real, y: real, h: Hypot)
    requires Initial(s0)
    ensures var s := Run(s0, [ProposeTask(role, x, y)], h);
            && s == Propose(s0, role, x, y)
            && s.history == [Proposed(ConsensusMessage(1, s0.station.config.droneId, Pending, 1), role, x, y, [])]
            && s.station.request == Some(Request(1, [])) && s.drones == s0.drones
            && s.proposer == Controller.Proposer(Controller.VotingState, 2, 1, TaskOrder(1, role, x, y))
  {
    MissionLoop.RunProposal(s0, role, x, y, h);
    NobodyHeard(s0.station.config, s0.station.flight.battery);
  }

  lemma NobodyHeard(config: SwarmConfig, battery: uint8)
    ensures PeerTable.OnlineDroneIds(Boot(config, battery).peers) == []
  {
    NobodyHeardFrom(0);
  }

  lemma {:induction false} NobodyHeardFrom(first: nat)
    requires first <= 256
    ensures PeerTable.VotersFrom(map[], first) == []
    decreases 256 - first
  {
    if first < 256 {
      NobodyHeardFrom(first + 1);
    }
  }

  lemma InitialListens(s0: System, id: uint8)
    requires Initial(s0) && id in s0.drones && !s0.drones[id].config.faultSilent
    ensures Listens(s0, id) && id != s0.station.config.droneId
  {
  }

  /** The station has asked nobody to vote, with its order prepared, and is in no emergency. */
  ghost predicate AskedNobody(s: System, order: TaskOrder) {
    && s.station.config.nodeType == GcsNode && s.station.commands == [] && s.station.outcome == None
    && NoRisingEdge(s.station) && s.station.request == Some(Request(order.taskId, []))
    && s.proposer.state == Controller.VotingState && s.proposer.activeTx == order.taskId
    && s.proposer.pendingOrder == order
  }

  lemma UnaskedStep(s: System, order: TaskOrder, now: TimePoint, h: Hypot)
    requires AskedNobody(s, order)
    ensures Apply(s, StationActs(Tick(now)), h)
         == s.(station := Step(s.station, now, h),
               history := s.history + [Recorded(VoteOutcome(order.taskId, Committed, false))])
    ensures Step(s.station, now, h).outcome == Some(VoteOutcome(order.taskId, Committed, false))
  {
    Decision.EmptyVoteCommits(s.station, s.station.request.value, now, h);
    StationPublishesNothing(s.station, now);
    assert VoteEvents(s.station.flight.battery, []) == [];
    assert s.history + [] == s.history;
  }

  lemma ControllerOrders(s: System, order: TaskOrder, h: Hypot)
    requires s.proposer.state == Controller.VotingState && s.proposer.activeTx == order.taskId
    requires s.proposer.pendingOrder == order && s.station.outcome == Some(VoteOutcome(order.taskId, Committed, false))
    ensures Apply(s, ControllerSteps, h).history == s.history + [Ordered(order)]
  {
  }

  function Deciding(now: TimePoint): seq<Move> {
    [StationActs(Tick(now)), ControllerSteps]
  }

  lemma OrdersUnasked(s: System, order: TaskOrder, now: TimePoint, h: Hypot)
    requires AskedNobody(s, order)
    ensures Run(s, Deciding(now), h).history
         == s.history + [Recorded(VoteOutcome(order.taskId, Committed, false)), Ordered(order)]
  {
    UnaskedStep(s, order, now, h);
    MissionLoop.RunTwo(s, StationActs(Tick(now)), ControllerSteps, h);
    ControllerOrders(s.(station := Step(s.station, now, h),
                        history := s.history + [Recorded(VoteOutcome(order.taskId, Committed, false))]), order, h);
  }

  /** With no drone online, a station fit to fly turns its first proposal into an order without any vote. */
  lemma OrderWithoutVote(s0: System, role: DroneRole, x: real, y: real, now: TimePoint, h: Hypot)
    requires Initial(s0) && s0.station.flight.battery >= CRITICAL_BATTERY
    ensures Run(s0, [ProposeTask(role, x, y)] + Deciding(now), h).history
         == [Proposed(ConsensusMessage(1, s0.station.config.droneId, Pending, 1), role, x, y, []),
             Recorded(VoteOutcome(1, Committed, false)), Ordered(TaskOrder(1, role, x, y))]
  {
    var order := TaskOrder(1, role, x, y);
    FirstProposal(s0, role, x, y, h);
    OrdersUnasked(Propose(s0, role, x, y), order, now, h);
    MissionLoop.RunAppends(s0, [ProposeTask(role, x, y)], Deciding(now), h);
  }

  function StrangerRun(id: uint8, now: TimePoint, later: TimePoint): seq<Move> {
    HearAt(id, 0, now) + Deciding(later)
  }

  /** The run from the proposal on: the stranger answers, then the station decides. */
  lemma StrangerThenOrder(s: System, order: TaskOrder, id: uint8, now: TimePoint, later: TimePoint, h: Hypot)
    requires AskedNobody(s, order) && Listens(s, id) && s.history != [] && ProposalFor(s.history[0], id)
    ensures Run(s, StrangerRun(id, now, later), h).history
         == s.history + [Answer(s.history[0], id, s.drones[id].flight.battery)]
                      + [Recorded(VoteOutcome(order.taskId, Committed, false)), Ordered(order)]
  {
    var s1 := DroneHears(s, id, 0, now, h);
    OrdersUnasked(s1, order, later, h);
    MissionLoop.RunAppends(s, HearAt(id, 0, now), Deciding(later), h);
  }

  /**
   An ACK may be on record all the same: a drone the station has not heard yet receives the proposal
   and answers, though it is no voter.
   */
  lemma StrangersMayAck(s0: System, role: DroneRole, x: real, y: real, id: uint8, now: TimePoint, later: TimePoint,
                        h: Hypot)
    requires Initial(s0) && s0.station.flight.battery >= CRITICAL_BATTERY
    requires id in s0.drones && !s0.drones[id].config.faultSilent && s0.drones[id].flight.battery >= CRITICAL_BATTERY
    ensures Run(s0, [ProposeTask(role, x, y)] + StrangerRun(id, now, later), h).history
         == [Proposed(ConsensusMessage(1, s0.station.config.droneId, Pending, 1), role, x, y, []),
             VotePublished(ConsensusMessage(1, id, Ack, 1), s0.drones[id].flight.battery),
             Recorded(VoteOutcome(1, Committed, false)), Ordered(TaskOrder(1, role, x, y))]
  {
    FirstProposal(s0, role, x, y, h);
    InitialListens(s0, id);
    StrangerThenOrder(Propose(s0, role, x, y), TaskOrder(1, role, x, y), id, now, later, h);
    MissionLoop.RunAppends(s0, [ProposeTask(role, x, y)], StrangerRun(id, now, later), h);
  }

  // ---------------------------------------------------------------------
  //  All first votes are ACKs, and yet the vote is aborted
  // ---------------------------------------------------------------------

  /** Two different drones, both fit and answering proposals, and a station that is fit too. */
  ghost predicate TwoFitDrones(s: System, a: uint8, b: uint8) {
    && a != b && Listens(s, a) && Listens(s, b) && s.station.flight.battery >= CRITICAL_BATTERY
    && s.drones[a].flight.battery >= CRITICAL_BATTERY && s.drones[b].flight.battery >= CRITICAL_BATTERY
  }

  /** A vote among the drones a and b has just been requested, by the first event of the history. */
  ghost predicate Polling(s: System, a: uint8, b: uint8) {
    && TwoFitDrones(s, a, b) && |s.history| == 1
    && ProposalFor(s.history[0], a) && ProposalFor(s.history[0], b)
    && s.station.config.nodeType == GcsNode && s.station.config.droneId != a && s.station.config.droneId != b
    && s.station.commands == [] && s.station.outcome == None && NoRisingEdge(s.station)
    && s.station.request == Some(Request(s.history[0].message.tx, s.history[0].voters))
    && (forall id: uint8 :: id in s.history[0].voters <==> id == a || id == b)
    && s.proposer.state == Controller.VotingState && s.proposer.activeTx == s.history[0].message.tx
  }

  function HeartbeatOf(n: Node): Heartbeat {
    Heartbeat(n.config.droneId, DroneNode, n.config.role, IdleType)
  }

  function HearBoth(s0: System, a: uint8, b: uint8, at: TimePoint): seq<Move>
    requires a in s0.drones && b in s0.drones
  {
    [StationActs(HeartbeatArrives(HeartbeatOf(s0.drones[a]), at))]
    + [StationActs(HeartbeatArrives(HeartbeatOf(s0.drones[b]), at))]
  }

  /** The station after both heartbeats. */
  function BothHeard(s0: System, a: uint8, b: uint8, at: TimePoint): System
    requires a in s0.drones && b in s0.drones
  {
    var peers := PeerTable.OnHeartbeat(s0.station.peers, HeartbeatOf(s0.drones[a]), at);
    s0.(station := s0.station.(peers := PeerTable.OnHeartbeat(peers, HeartbeatOf(s0.drones[b]), at)))
  }

  lemma HearBothRun(s0: System, a: uint8, b: uint8, at: TimePoint, h: Hypot)
    requires Initial(s0) && a in s0.drones && b in s0.drones
    ensures Run(s0, HearBoth(s0, a, b, at), h) == BothHeard(s0, a, b, at)
  {
    var hb := HeartbeatOf(s0.drones[a]);
    VotePhases.HeartbeatMove(s0, hb, at, h);
    VotePhases.HeartbeatMove(s0.(station := s0.station.(peers := PeerTable.OnHeartbeat(s0.station.peers, hb, at))),
                             HeartbeatOf(s0.drones[b]), at, h);
    MissionLoop.RunAppends(s0, [StationActs(HeartbeatArrives(hb, at))],
                           [StationActs(HeartbeatArrives(HeartbeatOf(s0.drones[b]), at))], h);
  }

  /** The table after heartbeats of the drones a and b. */
  lemma TwoHeartbeats(a: Heartbeat, b: Heartbeat, at: TimePoint)
    requires a.nodeType == DroneNode && b.nodeType == DroneNode
    ensures var peers := PeerTable.OnHeartbeat(PeerTable.OnHeartbeat(map[], a, at), b, at);
            && PeerTable.Keyed(peers) && !PeerTable.SomeoneLost(peers)
            && (forall id: uint8 :: id in peers && PeerTable.Votes(peers[id]) <==> id == a.droneId || id == b.droneId)
  {
  }

  lemma ProposingPolls(s: System, a: uint8, b: uint8, role: DroneRole, x: real, y: real)
    requires TwoFitDrones(s, a, b) && s.history == []
    requires s.station.config.nodeType == GcsNode && s.station.config.droneId != a && s.station.config.droneId != b
    requires s.station.commands == [] && s.station.outcome == None
    requires PeerTable.Keyed(s.station.peers) && !PeerTable.SomeoneLost(s.station.peers)
    requires forall id: uint8 :: id in s.station.peers && PeerTable.Votes(s.station.peers[id]) <==> id == a || id == b
    ensures Polling(Propose(s, role, x, y), a, b)
  {
    PeerTable.VotersAreOnlineDrones(s.station.peers, 0);
  }

  lemma PollingRun(s0: System, a: uint8, b: uint8, at: TimePoint, role: DroneRole, x: real, y: real, h: Hypot)
      returns (s: System)
    requires Initial(s0) && TwoFitDrones(s0, a, b)
    ensures s == Run(s0, HearBoth(s0, a, b, at) + [ProposeTask(role, x, y)], h) && Polling(s, a, b)
    ensures s.history[0].message.tx == 1
  {
    s := Propose(BothHeard(s0, a, b, at), role, x, y);
    HearBothRun(s0, a, b, at, h);
    MissionLoop.RunAppends(s0, HearBoth(s0, a, b, at), [ProposeTask(role, x, y)], h);
    MissionLoop.RunProposal(BothHeard(s0, a, b, at), role, x, y, h);
    TwoHeartbeats(HeartbeatOf(s0.drones[a]), HeartbeatOf(s0.drones[b]), at);
    ProposingPolls(BothHeard(s0, a, b, at), a, b, role, x, y);
  }

  /** Both drones answer; then a restarts with a low battery and answers again. */
  function Voting(a: uint8, b: uint8, low: uint8, at: TimePoint): seq<Move> {
    HearAt(a, 0, at) + HearAt(b, 0, at) + RestartAndHear(a, low, 0, at)
  }

  /** What the three answers have done to a polling system. */
  ghost predicate Voted(s: System, s': System, a: uint8, b: uint8, low: uint8) {
    && |s.history| == 1 && s.history[0].Proposed? && a in s.drones && b in s.drones
    && s'.station == s.station && s'.proposer == s.proposer
    && s'.history == s.history + [Answer(s.history[0], a, s.drones[a].flight.battery)]
                     + [Answer(s.history[0], b, s.drones[b].flight.battery)] + [Answer(s.history[0], a, low)]
  }

  lemma VotingRun(s: System, a: uint8, b: uint8, low: uint8, at: TimePoint, h: Hypot) returns (s': System)
    requires Polling(s, a, b)
    ensures s' == Run(s, Voting(a, b, low, at), h) && Voted(s, s', a, b, low)
  {
    var s1 := DroneHears(s, a, 0, at, h);
    var s2 := DroneHears(s1, b, 0, at, h);
    MissionLoop.RunAppends(s, HearAt(a, 0, at), HearAt(b, 0, at), h);
    s' := RestartedHears(s2, a, low, 0, at, h);
    MissionLoop.RunAppends(s, HearAt(a, 0, at) + HearAt(b, 0, at), RestartAndHear(a, low, 0, at), h);
  }

  /** The station gets a's two answers before that of b. */
  function Delivering(): seq<Move> {
    [DeliverToStation(1), DeliverToStation(3)] + [DeliverToStation(2)]
  }

  lemma OneDelivery(s: System, third: Command, h: Hypot)
    requires |s.history| == 4 && Deliverable(s.history[2]) == Some(third)
    ensures Run(s, [DeliverToStation(2)], h) == s.(station := s.station.(commands := s.station.commands + [third]))
  {
    MissionLoop.RunOne(s, DeliverToStation(2), h);
  }

  lemma DeliveringRun(s: System, first: Command, second: Command, third: Command, h: Hypot)
    requires |s.history| == 4 && s.station.commands == []
    requires Deliverable(s.history[1]) == Some(first) && Deliverable(s.history[3]) == Some(second)
    requires Deliverable(s.history[2]) == Some(third)
    ensures Run(s, Delivering(), h) == s.(station := s.station.(commands := [first, second, third]))
  {
    OneDelivery(s.(station := s.station.(commands := [first, second])), third, h);
    MissionLoop.RunAppends(s, [DeliverToStation(1), DeliverToStation(3)], [DeliverToStation(2)], h);
  }

  /** ACK and NACK of a before the ACK of b: a NACK, and no moment of unanimity. */
  lemma NackBeforeUnanimity(a: uint8, b: uint8)
    requires a != b
    ensures var casts := [Ballots.Cast(a, Ack), Ballots.Cast(a, Nack), Ballots.Cast(b, Ack)];
            Ballots.VoterNack({a, b}, casts) && !Ballots.EverUnanimous({a, b}, casts)
  {
    var casts := [Ballots.Cast(a, Ack), Ballots.Cast(a, Nack), Ballots.Cast(b, Ack)];
    assert casts[1].sender in {a, b} && casts[1].vote == Nack;
    forall k | 0 <= k <= 3 ensures !Ballots.Unanimous({a, b}, casts[..k]) {
      if k < 2 {
        assert b in {a, b} && Ballots.LastVote(casts[..k], b) == Pending;
      } else {
        assert casts[..k][1] == casts[1];
      }
    }
  }

  lemma ThreeVotes(own: uint8, tx: uint32, a: uint8, b: uint8, commands: seq<Command>, seqNum: uint32)
    requires own != a && own != b
    requires commands == [ConsensusCommand(ConsensusMessage(tx, a, Ack, seqNum)),
                          ConsensusCommand(ConsensusMessage(tx, a, Nack, seqNum)),
                          ConsensusCommand(ConsensusMessage(tx, b, Ack, seqNum))]
    ensures Decision.VotesFor(commands, own, tx) == [Ballots.Cast(a, Ack), Ballots.Cast(a, Nack), Ballots.Cast(b, Ack)]
  {
    assert commands[1..][1..] == [commands[2]] && [commands[2]][1..] == [];
    assert Decision.VotesFor([commands[2]], own, tx) == [Ballots.Cast(b, Ack)];
    assert Decision.VotesFor(commands[1..], own, tx) == [Ballots.Cast(a, Nack), Ballots.Cast(b, Ack)];
  }

  /** The station's step on the three votes records an abort that is not a timeout. */
  lemma ThreeVotesAbort(n: Node, r: Request, a: uint8, b: uint8, seqNum: uint32, now: TimePoint, h: Hypot)
    requires n.config.nodeType == GcsNode && NoRisingEdge(n) && n.request == Some(r)
    requires a != b && n.config.droneId != a && n.config.droneId != b
    requires forall id: uint8 :: id in r.voters <==> id == a || id == b
    requires n.commands == [ConsensusCommand(ConsensusMessage(r.tx, a, Ack, seqNum)),
                            ConsensusCommand(ConsensusMessage(r.tx, a, Nack, seqNum)),
                            ConsensusCommand(ConsensusMessage(r.tx, b, Ack, seqNum))]
    ensures Step(n, now, h).outcome == Some(VoteOutcome(r.tx, Aborted, false))
  {
    ThreeVotes(n.config.droneId, r.tx, a, b, n.commands, seqNum);
    assert (set v | v in r.voters) == {a, b};
    NackBeforeUnanimity(a, b);
    assert a in r.voters;
    Decision.WaitingVotesDecide(n, r, now, h);
  }

  lemma ControllerWithdraws(s: System, tx: uint32, h: Hypot)
    requires s.proposer.state == Controller.VotingState && s.proposer.activeTx == tx
    requires s.station.outcome == Some(VoteOutcome(tx, Aborted, false))
    ensures Apply(s, ControllerSteps, h).history == s.history + [Withdrawn(tx)]
  {
  }

  /** A station step that publishes no vote and records a new outcome. */
  lemma RecordingStep(s: System, o: VoteOutcome, now: TimePoint, h: Hypot)
    requires s.station.config.nodeType == GcsNode && s.station.outcome == None
    requires Step(s.station, now, h).outcome == Some(o) && Published(s.station, now) == []
    ensures Apply(s, StationActs(Tick(now)), h)
         == s.(station := Step(s.station, now, h), history := s.history + [Recorded(o)])
  {
    assert VoteEvents(s.station.flight.battery, []) == [];
    assert s.history + [] == s.history;
  }

  lemma AbortingRun(s: System, tx: uint32, now: TimePoint, h: Hypot)
    requires s.station.config.nodeType == GcsNode && s.station.outcome == None
    requires Step(s.station, now, h).outcome == Some(VoteOutcome(tx, Aborted, false)) && Published(s.station, now) == []
    requires s.proposer.state == Controller.VotingState && s.proposer.activeTx == tx
    ensures Run(s, Deciding(now), h).history
         == s.history + [Recorded(VoteOutcome(tx, Aborted, false)), Withdrawn(tx)]
  {
    var o := VoteOutcome(tx, Aborted, false);
    RecordingStep(s, o, now, h);
    MissionLoop.RunTwo(s, StationActs(Tick(now)), ControllerSteps, h);
    ControllerWithdraws(s.(station := Step(s.station, now, h), history := s.history + [Recorded(o)]), tx, h);
  }

  /** The three answers as the station's commands. */
  function ThreeCommands(m: ConsensusMessage, a: uint8, b: uint8): seq<Command> {
    [ConsensusCommand(ConsensusMessage(m.tx, a, Ack, m.seqNum)),
     ConsensusCommand(ConsensusMessage(m.tx, a, Nack, m.seqNum)),
     ConsensusCommand(ConsensusMessage(m.tx, b, Ack, m.seqNum))]
  }

  /** The station with the three answers waiting, about to abort. */
  lemma ReadyToAbort(s: System, voted: System, a: uint8, b: uint8, low: uint8, now: TimePoint, h: Hypot)
      returns (full: System)
    requires Polling(s, a, b) && low < CRITICAL_BATTERY && Voted(s, voted, a, b, low)
    ensures full == Run(voted, Delivering(), h)
    ensures full.history == voted.history && full.proposer == s.proposer
    ensures full.station.config.nodeType == GcsNode && full.station.outcome == None
    ensures Step(full.station, now, h).outcome == Some(VoteOutcome(s.history[0].message.tx, Aborted, false))
    ensures Published(full.station, now) == []
  {
    var m := s.history[0].message;
    var commands := ThreeCommands(m, a, b);
    DeliveringRun(voted, commands[0], commands[1], commands[2], h);
    full := voted.(station := voted.station.(commands := commands));
    ThreeVotesAbort(full.station, full.station.request.value, a, b, m.seqNum, now, h);
    StationPublishesNothing(full.station, now);
  }

  lemma AbortedPoll(s: System, a: uint8, b: uint8, low: uint8, at: TimePoint, now: TimePoint, h: Hypot)
    requires Polling(s, a, b) && low < CRITICAL_BATTERY
    ensures var tx := s.history[0].message.tx;
            Run(s, Voting(a, b, low, at) + Delivering() + Deciding(now), h).history
            == s.history + [Answer(s.history[0], a, s.drones[a].flight.battery)]
                         + [Answer(s.history[0], b, s.drones[b].flight.battery)] + [Answer(s.history[0], a, low)]
                         + [Recorded(VoteOutcome(tx, Aborted, false)), Withdrawn(tx)]
  {
    var voted := VotingRun(s, a, b, low, at, h);
    var full := ReadyToAbort(s, voted, a, b, low, now, h);
    MissionLoop.RunAppends(s, Voting(a, b, low, at), Delivering(), h);
    AbortingRun(full, s.history[0].message.tx, now, h);
    MissionLoop.RunAppends(s, Voting(a, b, low, at) + Delivering(), Deciding(now), h);
  }

  /** The first vote of every voter in the history is an ACK. */
  ghost predicate FirstVotesAreAcks(hist: seq<Event>, tx: uint32, voters: seq<uint8>) {
    forall v | v in voters ::
      exists j :: IsVote(hist, j, tx, v, Ack) && forall i | 0 <= i < j :: !IsVote(hist, i, tx, v, Nack)
  }

  /**
   First votes do not decide, in the system.  From every initial state with a fit station and two fit
   drones there is a run in which the station hears both, proposes, and each drone's first vote is an
   ACK; then one restarts with a low battery and answers the retained proposal with NACK.  When its
   answers reach the station before the other drone's, the transaction is aborted by that NACK.
   */
  lemma UnanimousFirstVotesMayAbort(s0: System, a: uint8, b: uint8, low: uint8, role: DroneRole, x: real, y: real,
                                    at: TimePoint, now: TimePoint, h: Hypot) returns (moves: seq<Move>)
    requires Initial(s0) && TwoFitDrones(s0, a, b) && low < CRITICAL_BATTERY
    ensures var hist := Run(s0, moves, h).history;
            && |hist| == 6 && hist[0].Proposed? && hist[0].message.tx == 1
            && (forall id: uint8 :: id in hist[0].voters <==> id == a || id == b)
            && FirstVotesAreAcks(hist, 1, hist[0].voters)
            && IsVote(hist, 3, 1, a, Nack)
            && hist[4] == Recorded(VoteOutcome(1, Aborted, false)) && hist[5] == Withdrawn(1)
  {
    var opening := HearBoth(s0, a, b, at) + [ProposeTask(role, x, y)];
    var rest := Voting(a, b, low, at) + Delivering() + Deciding(now);
    var s := PollingRun(s0, a, b, at, role, x, y, h);
    AbortedPoll(s, a, b, low, at, now, h);
    moves := opening + rest;
    MissionLoop.RunAppends(s0, opening, rest, h);
    AbortedHistory(s, Run(s0, moves, h).history, a, b, low);
  }

  lemma AbortedHistory(s: System, hist: seq<Event>, a: uint8, b: uint8, low: uint8)
    requires Polling(s, a, b) && low < CRITICAL_BATTERY && s.history[0].message.tx == 1
    requires hist == s.history + [Answer(s.history[0], a, s.drones[a].flight.battery)]
                     + [Answer(s.history[0], b, s.drones[b].flight.battery)] + [Answer(s.history[0], a, low)]
                     + [Recorded(VoteOutcome(1, Aborted, false)), Withdrawn(1)]
    ensures |hist| == 6 && hist[0] == s.history[0] && IsVote(hist, 3, 1, a, Nack)
    ensures hist[4] == Recorded(VoteOutcome(1, Aborted, false)) && hist[5] == Withdrawn(1)
    ensures FirstVotesAreAcks(hist, 1, hist[0].voters)
  {
    assert IsVote(hist, 1, 1, a, Ack) && IsVote(hist, 2, 1, b, Ack);
  }
}
