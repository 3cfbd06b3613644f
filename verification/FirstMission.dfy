/**
 A run from the start to a mission in the air: the station hears a drone and asks it, the drone votes
 for the mission, the vote commits it, and the order reaches the drone.
 */
module FirstMission {
  import opened SwarmTypes
  import opened Motion
  import opened Tasks
  import opened Engine
  import opened Swarm
  import opened OrderedFlights
  import opened Scenarios
  import Ballots
  import Controller
  import Decision
  import MissionLoop
  import MissionRuns
  import PeerTable
  import VotePhases

  // ---------------------------------------------------------------------
  //  The vote
  // ---------------------------------------------------------------------

  /** A vote of the drone a alone has just been requested, by the first event of the history. */
  ghost predicate AsksOne(s: System, a: uint8, order: TaskOrder) {
    && Listens(s, a) && s.drones[a].flight.battery >= CRITICAL_BATTERY
    && s.station.config.nodeType == GcsNode && s.station.config.droneId != a
    && s.station.commands == [] && s.station.outcome == None && NoRisingEdge(s.station)
    && s.station.request == Some(Request(order.taskId, [a]))
    && s.history == [Proposed(ConsensusMessage(order.taskId, s.station.config.droneId, Pending, order.taskId),
                              order.role, order.x, order.y, [a])]
    && s.proposer.state == Controller.VotingState && s.proposer.activeTx == order.taskId
    && s.proposer.pendingOrder == order
  }

  lemma OnlyVoter(peers: PeerTable.Peers, a: uint8)
    requires PeerTable.Keyed(peers) && forall id: uint8 :: id in peers && PeerTable.Votes(peers[id]) <==> id == a
    ensures PeerTable.OnlineDroneIds(peers) == [a]
  {
    var ids := PeerTable.OnlineDroneIds(peers);
    var first := if |ids| > 0 then ids[0] else a;
    var second := if |ids| > 1 then ids[1] else a;
    PeerTable.VotersAreOnlineDrones(peers, 0);
    assert |ids| > 1 ==> first < second;
    assert a in ids;
    forall i | 0 <= i < |ids| ensures ids[i] == a {
      assert ids[i] in ids;
    }
  }

  function Opening(s0: System, a: uint8, at: TimePoint, x: real, y: real): seq<Move>
    requires a in s0.drones
  {
    [StationActs(HeartbeatArrives(HeartbeatOf(s0.drones[a]), at))] + [ProposeTask(s0.drones[a].config.role, x, y)]
  }

  lemma OpeningRun(s0: System, a: uint8, at: TimePoint, x: real, y: real, h: Hypot)
      returns (moves: seq<Move>, s: System)
    requires Initial(s0) && Listens(s0, a)
    requires s0.station.flight.battery >= CRITICAL_BATTERY && s0.drones[a].flight.battery >= CRITICAL_BATTERY
    ensures s == Run(s0, moves, h) && s.drones == s0.drones
    ensures AsksOne(s, a, TaskOrder(1, s0.drones[a].config.role, x, y)) && s.station.config == s0.station.config
  {
    var hb, role := HeartbeatOf(s0.drones[a]), s0.drones[a].config.role;
    var heard := VotePhases.HeardOne(s0, hb, at);
    VotePhases.HeartbeatMove(s0, hb, at, h);
    MissionLoop.RunAppends(s0, [StationActs(HeartbeatArrives(hb, at))], [ProposeTask(role, x, y)], h);
    MissionLoop.RunProposal(heard, role, x, y, h);
    OnlyVoter(heard.station.peers, a);
    moves, s := Opening(s0, a, at, x, y), Propose(heard, role, x, y);
  }

  /** The drone's ACK is on the network. */
  ghost predicate Acked(s: System, s': System, a: uint8) {
    && |s.history| == 1 && s.history[0].Proposed? && a in s.drones
    && s'.station == s.station && s'.proposer == s.proposer && Listens(s', a)
    && s'.drones[a].config == s.drones[a].config
    && s'.history == s.history + [Answer(s.history[0], a, s.drones[a].flight.battery)]
  }

  lemma OneAckCommits(n: Node, r: Request, a: uint8, seqNum: uint32, now: TimePoint, h: Hypot)
    requires n.config.nodeType == GcsNode && NoRisingEdge(n) && n.request == Some(r)
    requires r.voters == [a] && n.config.droneId != a
    requires n.commands == [ConsensusCommand(ConsensusMessage(r.tx, a, Ack, seqNum))]
    ensures Step(n, now, h).outcome == Some(VoteOutcome(r.tx, Committed, false))
  {
    var casts := [Ballots.Cast(a, Ack)];
    assert n.commands[1..] == [];
    assert Decision.VotesFor(n.commands, n.config.droneId, r.tx) == casts;
    assert (set v | v in r.voters) == {a};
    assert casts[..1] == casts && Ballots.LastVote(casts, a) == Ack;
    assert Ballots.Unanimous({a}, casts[..1]);
    Decision.WaitingVotesDecide(n, r, now, h);
  }

  /** The vote reaches the station, which commits, and the controller publishes the order. */
  function Committing(now: TimePoint): seq<Move> {
    [DeliverToStation(1)] + Deciding(now)
  }

  lemma CommittingRun(s: System, s1: System, a: uint8, order: TaskOrder, now: TimePoint, h: Hypot)
      returns (moves: seq<Move>, s2: System)
    requires AsksOne(s, a, order) && Acked(s, s1, a)
    ensures s2 == Run(s1, moves, h) && s2.drones == s1.drones
    ensures s2.history == s1.history + [Recorded(VoteOutcome(order.taskId, Committed, false)), Ordered(order)]
  {
    var full := VoteArrives(s, s1, a, order, h);
    OneAckCommits(full.station, full.station.request.value, a, order.taskId, now, h);
    StationPublishesNothing(full.station, now);
    MissionLoop.RunAppends(s1, [DeliverToStation(1)], Deciding(now), h);
    moves := Committing(now);
    s2 := DecidingRun(full, order, now, h);
  }

  lemma VoteArrives(s: System, s1: System, a: uint8, order: TaskOrder, h: Hypot) returns (full: System)
    requires AsksOne(s, a, order) && Acked(s, s1, a)
    ensures full == Run(s1, [DeliverToStation(1)], h)
    ensures full.history == s1.history && full.drones == s1.drones && full.proposer == s.proposer
    ensures var ack := ConsensusMessage(order.taskId, a, Ack, order.taskId);
            full.station == s.station.(commands := [ConsensusCommand(ack)])
  {
    var ack := Answer(s.history[0], a, s.drones[a].flight.battery);
    full := s1.(station := s1.station.(commands := [ConsensusCommand(ack.message)]));
    assert s1.history[1] == ack;
    MissionLoop.RunOne(s1, DeliverToStation(1), h);
    assert [] + [ConsensusCommand(ack.message)] == [ConsensusCommand(ack.message)];
  }

  lemma DecidingRun(s: System, order: TaskOrder, now: TimePoint, h: Hypot) returns (s': System)
    requires s.station.config.nodeType == GcsNode && s.station.outcome == None && Published(s.station, now) == []
    requires Step(s.station, now, h).outcome == Some(VoteOutcome(order.taskId, Committed, false))
    requires s.proposer.state == Controller.VotingState && s.proposer.activeTx == order.taskId
    requires s.proposer.pendingOrder == order
    ensures s' == Run(s, Deciding(now), h) && s'.drones == s.drones
    ensures s'.history == s.history + [Recorded(VoteOutcome(order.taskId, Committed, false)), Ordered(order)]
  {
    var o := VoteOutcome(order.taskId, Committed, false);
    var recorded := s.(station := Step(s.station, now, h), history := s.history + [Recorded(o)]);
    RecordingStep(s, o, now, h);
    MissionLoop.RunTwo(s, StationActs(Tick(now)), ControllerSteps, h);
    s' := ControllerPublishes(recorded, order, h);
  }

  lemma ControllerPublishes(s: System, order: TaskOrder, h: Hypot) returns (s': System)
    requires s.proposer.state == Controller.VotingState && s.proposer.activeTx == order.taskId
    requires s.proposer.pendingOrder == order && s.station.outcome == Some(VoteOutcome(order.taskId, Committed, false))
    ensures s' == Apply(s, ControllerSteps, h) && s'.drones == s.drones && s'.history == s.history + [Ordered(order)]
  {
    s' := Apply(s, ControllerSteps, h);
    ControllerOrders(s, order, h);
  }

  // ---------------------------------------------------------------------
  //  The drone
  // ---------------------------------------------------------------------

  /** Resting where it started, with nothing waiting. */
  ghost predicate Parked(n: Node) {
    Resting(n) && n.commands == [] && n.flight.x == 0.0 && n.flight.y == 0.0
  }

  /** A drone that has heard only the proposal is still parked. */
  lemma ParkedHears(n: Node, m: ConsensusMessage, now: TimePoint, h: Hypot)
    requires Parked(n) && !CheckEmergency(n)
    ensures Parked(Step(WithMessage(n, m), now, h))
  {
    var heard := WithMessage(n, m);
    assert heard.commands[1..] == [];
    assert OrdersFor(heard.commands, heard.config) == [];
    RestingStays(heard, now, h);
    StepTakesAll(heard, now, h);
    StepFrame(heard, now, h);
  }

  lemma AckingRun(s: System, a: uint8, order: TaskOrder, now: TimePoint, h: Hypot)
      returns (moves: seq<Move>, s1: System)
    requires AsksOne(s, a, order) && Parked(s.drones[a]) && !CheckEmergency(s.drones[a])
    ensures s1 == Run(s, moves, h) && Acked(s, s1, a) && Parked(s1.drones[a])
  {
    moves := HearAt(a, 0, now);
    s1 := DroneHears(s, a, 0, now, h);
    HearRun(s, a, 0, now, h);
    ParkedHears(s.drones[a], s.history[0].message, now, h);
  }

  /** The order is delivered and the drone takes a step. */
  function TakingOff(a: uint8, now: TimePoint): seq<Move> {
    [DeliverToDrone(a, 3), DroneActs(a, Tick(now))]
  }

  lemma TakingOffRun(s: System, a: uint8, order: TaskOrder, now: TimePoint, h: Hypot)
    requires a in s.drones && s.drones[a].commands == [] && |s.history| == 4 && s.history[3] == Ordered(order)
    ensures var ordered := s.drones[a].(commands := [OrderCommand(order)]);
            var s' := Run(s, TakingOff(a, now), h);
            && a in s'.drones && s'.drones[a] == Step(ordered, now, h)
            && s'.history == s.history + VoteEvents(ordered.flight.battery, Published(ordered, now))
  {
    var ordered := s.drones[a].(commands := [OrderCommand(order)]);
    MissionLoop.RunTwo(s, DeliverToDrone(a, 3), DroneActs(a, Tick(now)), h);
    OrderArrives(s, a, order, h);
    DroneTicks(s.(drones := s.drones[a := ordered]), a, now, h);
  }

  lemma OrderArrives(s: System, a: uint8, order: TaskOrder, h: Hypot)
    requires a in s.drones && s.drones[a].commands == [] && |s.history| == 4 && s.history[3] == Ordered(order)
    ensures Apply(s, DeliverToDrone(a, 3), h)
         == s.(drones := s.drones[a := s.drones[a].(commands := [OrderCommand(order)])])
  {
    MessageArrives(s, a, 3, h);
    assert [] + [OrderCommand(order)] == [OrderCommand(order)];
  }

  /** An order draws no vote. */
  lemma OrderDrawsNoVote(n: Node, order: TaskOrder, now: TimePoint)
    requires n.commands == [OrderCommand(order)]
    ensures Published(n, now) == []
  {
    SettleTakesRequest(n, now);
    var s := Settle(n, now);
    assert s.commands[1..] == [];
    assert Drain(ProcessCommand(s.(commands := []), OrderCommand(order)).0).1 == [];
  }

  /** On the way to the ordered place from (0, 0). */
  ghost predicate SetsOutFor(n: Node, order: TaskOrder, h: Hypot) {
    && CarriesOut(n, order) && n.flight.x == 0.0 && n.flight.y == 0.0 && n.flight.vz == 0.0
    && n.flight.vx * h(order.x, order.y) == 5.0 * order.x && n.flight.vy * h(order.x, order.y) == 5.0 * order.y
  }

  /** A resting drone with this order alone. */
  ghost predicate OrderedAtHome(n: Node, order: TaskOrder, h: Hypot) {
    && Resting(n) && OrdersFor(n.commands, n.config) == [order]
    && n.flight.x == 0.0 && n.flight.y == 0.0 && h(order.x, order.y) > 0.5
  }

  lemma DistanceFromHome(n: Node, m: Node, order: TaskOrder, h: Hypot)
    requires OrderedAtHome(n, order, h) && SamePlace(m.flight, n.flight)
    ensures Distance(h, m.flight, order) == h(order.x, order.y)
    ensures Heading(h, m.flight, m.flight, order.x, order.y, HORIZONTAL_SPEED) && CarriesOut(m, order) ==>
              SetsOutFor(m, order, h)
  {
    assert order.x - 0.0 == order.x && order.y - 0.0 == order.y;
  }

  lemma StrikerSetsOutFor(n: Node, order: TaskOrder, now: TimePoint, h: Hypot)
    requires IsHypot(h) && OrderedAtHome(n, order, h) && order.role == Striker
    ensures SetsOutFor(Step(n, now, h), order, h)
  {
    var id := StrikerSetsOut(n, order, now, h);
    DistanceFromHome(n, Step(n, now, h), order, h);
  }

  lemma ScoutSetsOutFor(n: Node, order: TaskOrder, now: TimePoint, h: Hypot)
    requires IsHypot(h) && OrderedAtHome(n, order, h) && order.role == Scout
    ensures SetsOutFor(Step(n, now, h), order, h)
  {
    var id, s := ScoutSetsOut(n, order, now, h);
    DistanceFromHome(n, Step(n, now, h), order, h);
    ScoutBegins(Step(n, now, h), id, s, order, now, h);
  }

  lemma ScoutBegins(n1: Node, id: nat, s: Search, order: TaskOrder, now: TimePoint, h: Hypot)
    requires order.role == Scout && s == SearchOf(order, now, s.scanStart) && MissionRuns.Starting(n1, id, s, now, h)
    requires MissionRuns.Scanning(n1, id, s, now, now, h) ==> Distance(h, n1.flight, order) <= 0.5
    requires MissionRuns.Approaching(n1, id, s, n1.flight, now, now, h) ==>
               SetOut(h, n1.flight, n1.flight, order, false)
    requires Distance(h, n1.flight, order) > 0.5
    ensures CarriesOut(n1, order) && Heading(h, n1.flight, n1.flight, order.x, order.y, HORIZONTAL_SPEED)
  {
  }

  lemma ParkedSetsOut(n: Node, order: TaskOrder, now: TimePoint, h: Hypot)
    requires IsHypot(h) && Parked(n.(commands := [])) && n.commands == [OrderCommand(order)]
    requires order.role == n.config.role && h(order.x, order.y) > 0.5
    ensures SetsOutFor(Step(n, now, h), order, h)
  {
    assert n.commands[1..] == [];
    assert OrdersFor(n.commands, n.config) == [order];
    match order.role
    case Striker => StrikerSetsOutFor(n, order, now, h);
    case Scout => ScoutSetsOutFor(n, order, now, h);
  }

  // ---------------------------------------------------------------------
  //  The whole run
  // ---------------------------------------------------------------------

  /** The history of a voted mission, and its drone still parked. */
  ghost predicate VotedFor(s: System, a: uint8, own: uint8, battery: uint8, order: TaskOrder) {
    && s.history == VotedHistory(a, own, battery, order)
    && a in s.drones && Parked(s.drones[a]) && s.drones[a].config.role == order.role
  }

  function VotedHistory(a: uint8, own: uint8, battery: uint8, order: TaskOrder): seq<Event> {
    [Proposed(ConsensusMessage(1, own, Pending, 1), order.role, order.x, order.y, [a]),
     VotePublished(ConsensusMessage(1, a, Ack, 1), battery),
     Recorded(VoteOutcome(1, Committed, false)), Ordered(order)]
  }

  /** The history of a voted mission, and its drone on the way. */
  ghost predicate VotedAndFlown(s: System, a: uint8, own: uint8, battery: uint8, order: TaskOrder, h: Hypot) {
    && s.history == VotedHistory(a, own, battery, order)
    && a in s.drones && SetsOutFor(s.drones[a], order, h)
  }

  lemma FlownAfterOrder(s: System, a: uint8, own: uint8, battery: uint8, order: TaskOrder, now: TimePoint, h: Hypot)
    requires IsHypot(h) && h(order.x, order.y) > 0.5 && VotedFor(s, a, own, battery, order)
    ensures VotedAndFlown(Run(s, TakingOff(a, now), h), a, own, battery, order, h)
  {
    var ordered := s.drones[a].(commands := [OrderCommand(order)]);
    TakingOffRun(s, a, order, now, h);
    OrderDrawsNoVote(ordered, order, now);
    assert VoteEvents(ordered.flight.battery, []) == [] && s.history + [] == s.history;
    assert ordered.(commands := []) == s.drones[a];
    ParkedSetsOut(ordered, order, now, h);
  }

  /** Up to the order: the station asks, the drone says ACK, the vote commits. */
  lemma VotedRun(s0: System, a: uint8, order: TaskOrder, at: TimePoint, now: TimePoint, h: Hypot)
      returns (moves: seq<Move>, s: System)
    requires Initial(s0) && Listens(s0, a)
    requires s0.station.flight.battery >= CRITICAL_BATTERY && s0.drones[a].flight.battery >= CRITICAL_BATTERY
    requires order == TaskOrder(1, s0.drones[a].config.role, order.x, order.y)
    ensures s == Run(s0, moves, h)
    ensures VotedFor(s, a, s0.station.config.droneId, s0.drones[a].flight.battery, order)
  {
    var opening, s1 := OpeningRun(s0, a, at, order.x, order.y, h);
    var voting, s2 := AckingRun(s1, a, order, at, h);
    var committing;
    committing, s := CommittingRun(s1, s2, a, order, now, h);
    moves := opening + voting + committing;
    ThreeParts(s0, opening, voting, committing, h);
  }

  lemma ThreeParts(s: System, p: seq<Move>, q: seq<Move>, r: seq<Move>, h: Hypot)
    ensures Run(s, p + q + r, h) == Run(Run(Run(s, p, h), q, h), r, h)
  {
    MissionLoop.RunAppends(s, p, q, h);
    MissionLoop.RunAppends(s, p + q, r, h);
  }

  /**
   A mission does get flown.  From every initial state with a fit station and a fit, answering drone, for
   every place more than half a metre away, there is a run in which the station hears the drone and
   proposes, the drone's ACK commits the vote, the order reaches it, and its next step sets it moving
   toward that place at 5 m/s.
   */
  lemma VotedMissionIsFlown(s0: System, a: uint8, x: real, y: real, at: TimePoint, now: TimePoint, h: Hypot)
      returns (moves: seq<Move>)
    requires Initial(s0) && Listens(s0, a) && IsHypot(h) && h(x, y) > 0.5
    requires s0.station.flight.battery >= CRITICAL_BATTERY && s0.drones[a].flight.battery >= CRITICAL_BATTERY
    ensures VotedAndFlown(Run(s0, moves, h), a, s0.station.config.droneId, s0.drones[a].flight.battery,
                          TaskOrder(1, s0.drones[a].config.role, x, y), h)
  {
    var order := TaskOrder(1, s0.drones[a].config.role, x, y);
    var voting, s := VotedRun(s0, a, order, at, now, h);
    moves := voting + TakingOff(a, now);
    MissionLoop.RunAppends(s0, voting, TakingOff(a, now), h);
    FlownAfterOrder(s, a, s0.station.config.droneId, s0.drones[a].flight.battery, order, now, h);
  }
}
