/**
 The whole system: one ground station, any number of drones, and a network that may delay, repeat,
 reorder and lose messages.

 The history of the system is the list of everything that was published, proposed, recorded and
 decided so far.  It is also the network: a delivery may bring any message of the history to any
 node at any later time, any number of times, or never.
 */
module Swarm {
  import opened SwarmTypes
  import opened Motion
  import opened Tasks
  import opened PeerTable
  import opened Engine
  import Ballots
  import Controller
  import QueueShape

  datatype Event =
    | Proposed(message: ConsensusMessage, role: DroneRole, x: real, y: real, voters: seq<uint8>)
    | VotePublished(message: ConsensusMessage, battery: uint8)
    | Recorded(outcome: VoteOutcome)
    | Ordered(order: TaskOrder)
    | Withdrawn(tx: uint32)

  datatype System = System(
    station: Node,
    proposer: Controller.Proposer,
    drones: map<uint8, Node>,
    history: seq<Event>)

  /** The message an event put on the network, as it reaches a command queue. */
  function Deliverable(e: Event): Option<Command> {
    match e
    case Proposed(m, _, _, _, _) => Some(ConsensusCommand(m))
    case VotePublished(m, _) => Some(ConsensusCommand(m))
    case Ordered(o) => Some(OrderCommand(o))
    case _ => None
  }

  // ---------------------------------------------------------------------
  //  Moves
  // ---------------------------------------------------------------------

  datatype Move =
    | DroneActs(id: uint8, a: Action)
    | StationActs(a: Action)
    | DeliverToDrone(id: uint8, event: nat)
    | DeliverToStation(event: nat)
    | ProposeTask(role: DroneRole, x: real, y: real)
    | ControllerSteps
    | ResultConsumed
    | DroneRestarts(id: uint8, battery: uint8)

  /** Engine steps, peer traffic and battery changes; commands and requests have moves of their own. */
  predicate Local(a: Action) {
    !a.AddCommand? && !a.RequestConsensus? && !a.PushTask?
  }

  /** Moves in which the controller has no part. */
  predicate Environmental(m: Move) {
    !m.ProposeTask? && !m.ControllerSteps? && !m.ResultConsumed?
  }

  predicate OnNetwork(s: System, event: nat) {
    event < |s.history| && Deliverable(s.history[event]).Some?
  }

  predicate Enabled(s: System, m: Move) {
    match m
    case DroneActs(id, a) => id in s.drones && Local(a)
    case StationActs(a) => Local(a)
    case DeliverToDrone(id, event) => id in s.drones && OnNetwork(s, event)
    case DeliverToStation(event) => OnNetwork(s, event)
    case ProposeTask(_, _, _) => true
    case ControllerSteps => true
    case ResultConsumed => true
    case DroneRestarts(id, _) => id in s.drones
  }

  function VoteEvents(battery: uint8, messages: seq<ConsensusMessage>): seq<Event> {
    seq(|messages|, i requires 0 <= i < |messages| => VotePublished(messages[i], battery))
  }

  /** The votes a node publishes in an action. */
  function Sent(n: Node, a: Action): seq<Event> {
    if a.Tick? then VoteEvents(n.flight.battery, Published(n, a.now)) else []
  }

  /** The outcome a node records in an action. */
  function Outcomes(before: Node, after: Node): seq<Event> {
    if after.outcome != before.outcome && after.outcome.Some? then [Recorded(after.outcome.value)] else []
  }

  function Propose(s: System, role: DroneRole, x: real, y: real): System {
    var voters := OnlineDroneIds(s.station.peers);
    var message := Controller.ProposalMessage(s.proposer, s.station.config.droneId);
    System(s.station.(request := Some(Request(s.proposer.nextTx, voters))),
           Controller.Propose(s.proposer, role, x, y),
           s.drones,
           s.history + [Proposed(message, role, x, y, voters)])
  }

  /** What the controller's step adds to the history. */
  function Decided(before: Controller.Proposer, after: Controller.Proposer, published: Option<TaskOrder>): seq<Event> {
    match published
    case Some(order) => [Ordered(order)]
    case None => if before.state == Controller.VotingState && after.state == Controller.Cancelled
                 then [Withdrawn(before.activeTx)] else []
  }

  function Decide(s: System): System {
    var (after, published) := Controller.StepController(s.proposer, s.station.outcome);
    s.(proposer := after, history := s.history + Decided(s.proposer, after, published))
  }

  /** A move that is not enabled changes nothing. */
  function Apply(s: System, m: Move, h: Hypot): System {
    if Enabled(s, m) then Perform(s, m, h) else s
  }

  function Perform(s: System, m: Move, h: Hypot): System
    requires Enabled(s, m)
  {
    match m
    case DroneActs(id, a) =>
      s.(drones := s.drones[id := Act(s.drones[id], a, h)], history := s.history + Sent(s.drones[id], a))
    case StationActs(a) =>
      var after := Act(s.station, a, h);
      s.(station := after, history := s.history + Sent(s.station, a) + Outcomes(s.station, after))
    case DeliverToDrone(id, event) =>
      s.(drones := s.drones[id := Act(s.drones[id], AddCommand(Deliverable(s.history[event]).value), h)])
    case DeliverToStation(event) =>
      s.(station := Act(s.station, AddCommand(Deliverable(s.history[event]).value), h))
    case ProposeTask(role, x, y) => Propose(s, role, x, y)
    case ControllerSteps => Decide(s)
    case ResultConsumed => s.(proposer := Controller.ConsumeResult(s.proposer))
    case DroneRestarts(id, battery) =>
      s.(drones := s.drones[id := Boot(s.drones[id].config, battery)])
  }

  ghost predicate Initial(s: System) {
    && s.station.config.nodeType == GcsNode
    && s.station == Boot(s.station.config, s.station.flight.battery)
    && s.proposer == Controller.New()
    && s.station.config.droneId !in s.drones
    && (forall id | id in s.drones ::
          && s.drones[id].config.droneId == id && s.drones[id].config.nodeType == DroneNode
          && s.drones[id] == Boot(s.drones[id].config, s.drones[id].flight.battery))
    && s.history == []
  }

  function Run(s: System, moves: seq<Move>, h: Hypot): System
    decreases |moves|
  {
    if moves == [] then s
    else Apply(Run(s, moves[..|moves| - 1], h), moves[|moves| - 1], h)
  }

  // ---------------------------------------------------------------------
  //  Reading the history
  // ---------------------------------------------------------------------

  predicate IsProposal(hist: seq<Event>, p: int, tx: uint32) {
    0 <= p < |hist| && hist[p].Proposed? && hist[p].message.tx == tx
  }

  predicate IsVote(hist: seq<Event>, j: int, tx: uint32, v: uint8, vote: Vote) {
    && 0 <= j < |hist| && hist[j].VotePublished?
    && hist[j].message.tx == tx && hist[j].message.sender == v && hist[j].message.vote == vote
  }

  predicate IsOutcome(hist: seq<Event>, c: int, tx: uint32, result: ConsensusResult) {
    0 <= c < |hist| && hist[c].Recorded? && hist[c].outcome.tx == tx && hist[c].outcome.result == result
  }

  /** The event that ends a transaction. */
  predicate Ends(e: Event, tx: uint32) {
    (e.Ordered? && e.order.taskId == tx) || (e.Withdrawn? && e.tx == tx)
  }

  ghost predicate HasVoted(hist: seq<Event>, tx: uint32, v: uint8, vote: Vote) {
    exists j :: IsVote(hist, j, tx, v, vote)
  }

  ghost predicate Ended(hist: seq<Event>, tx: uint32) {
    exists k :: 0 <= k < |hist| && Ends(hist[k], tx)
  }

  ghost predicate ProposedTo(hist: seq<Event>, tx: uint32, voters: set<uint8>) {
    exists p :: IsProposal(hist, p, tx) && voters == set v | v in hist[p].voters
  }

  /** The outcome is backed by published votes of the proposal's voters. */
  ghost predicate Backed(hist: seq<Event>, o: VoteOutcome, p: int) {
    && IsProposal(hist, p, o.tx)
    && (o.result == Committed ==> forall v | v in hist[p].voters :: HasVoted(hist, o.tx, v, Ack))
    && (o.result == Aborted && !o.byTimeout ==> exists v :: v in hist[p].voters && HasVoted(hist, o.tx, v, Nack))
  }

  ghost predicate Matches(e: Event, order: TaskOrder) {
    e.Proposed? && e.message.tx == order.taskId && e.role == order.role && e.x == order.x && e.y == order.y
  }

  ghost predicate ProposedAs(hist: seq<Event>, order: TaskOrder) {
    exists p :: 0 <= p < |hist| && Matches(hist[p], order)
  }

  /** What must already have happened for an event to be legitimate. */
  ghost predicate Justified(past: seq<Event>, e: Event) {
    match e
    case Proposed(m, _, _, _, _) =>
      && m.vote == Pending
      && (forall p | 0 <= p < |past| && past[p].Proposed? :: past[p].message.tx < m.tx)
    case VotePublished(m, battery) =>
      && m.vote == (if battery >= CRITICAL_BATTERY then Ack else Nack)
      && (exists p :: IsProposal(past, p, m.tx))
    case Recorded(o) =>
      && o.result != Undecided
      && (exists p :: Backed(past, o, p))
    case Ordered(order) =>
      && ProposedAs(past, order)
      && (exists c :: IsOutcome(past, c, order.taskId, Committed))
      && !Ended(past, order.taskId)
      && (forall k | 0 <= k < |past| && past[k].Ordered? :: past[k].order.taskId < order.taskId)
    case Withdrawn(tx) =>
      && (exists c :: IsOutcome(past, c, tx, Aborted))
      && !Ended(past, tx)
  }

  /** Every event of the history was legitimate when it happened. */
  ghost predicate Legitimate(hist: seq<Event>) {
    forall i | 0 <= i < |hist| :: Justified(hist[..i], hist[i])
  }

  lemma LegitimateExtends(hist: seq<Event>, e: Event)
    requires Legitimate(hist) && Justified(hist, e)
    ensures Legitimate(hist + [e])
  {
    var all := hist + [e];
    assert all[..|hist|] == hist;
    forall i | 0 <= i < |hist| ensures all[..i] == hist[..i] {}
  }

  /** Votes may be appended together: each is justified by what came before all of them. */
  lemma {:induction false} LegitimateVotes(hist: seq<Event>, votes: seq<Event>)
    requires Legitimate(hist)
    requires forall i | 0 <= i < |votes| :: votes[i].VotePublished? && Justified(hist, votes[i])
    ensures Legitimate(hist + votes)
    decreases |votes|
  {
    if votes == [] {
      assert hist + votes == hist;
    } else {
      var front, e := votes[..|votes| - 1], votes[|votes| - 1];
      LegitimateVotes(hist, front);
      var p :| IsProposal(hist, p, e.message.tx);
      assert IsProposal(hist + front, p, e.message.tx);
      LegitimateExtends(hist + front, e);
      assert hist + votes == hist + front + [e];
    }
  }

  // ---------------------------------------------------------------------
  //  The invariant
  // ---------------------------------------------------------------------

  ghost predicate FromNetwork(hist: seq<Event>, commands: seq<Command>) {
    forall c | c in commands :: exists i :: 0 <= i < |hist| && Deliverable(hist[i]) == Some(c)
  }

  /** A queued mission is what some published order asks of this role. */
  ghost predicate Licensed(hist: seq<Event>, t: Task, role: DroneRole) {
    IsMission(t) ==>
      exists k :: 0 <= k < |hist| && hist[k].Ordered? && hist[k].order.role == role && Fulfils(t, hist[k].order)
  }

  ghost predicate LicensedQueue(hist: seq<Event>, n: Node) {
    forall i | 0 <= i < |n.queue| :: Licensed(hist, n.queue[i].task, n.config.role)
  }

  ghost predicate DroneOk(hist: seq<Event>, id: uint8, n: Node) {
    && n.config.droneId == id && n.config.nodeType == DroneNode
    && QueueShape.AtRest(n)
    && FromNetwork(hist, n.commands)
    && LicensedQueue(hist, n)
  }

  /** The ballot's votes were published by its voters, and its result follows from them. */
  ghost predicate BallotOk(hist: seq<Event>, b: Ballots.Ballot) {
    && ProposedTo(hist, b.tx, b.votes.Keys)
    && (forall v | v in b.votes && b.votes[v] != Pending :: HasVoted(hist, b.tx, v, b.votes[v]))
    && (b.result == Committed ==> Ballots.AllAck(b.votes))
    && (b.result == Aborted && !b.byTimeout ==> Ballots.SomeNack(b.votes))
  }

  ghost predicate BallotsOk(hist: seq<Event>, queue: seq<Slot>) {
    forall i | 0 <= i < |queue| && queue[i].task.Voting? :: BallotOk(hist, queue[i].task.ballot)
  }

  ghost predicate RequestOk(hist: seq<Event>, request: Option<Request>) {
    request.Some? ==> ProposedTo(hist, request.value.tx, set v | v in request.value.voters)
  }

  ghost predicate OutcomeOk(hist: seq<Event>, outcome: Option<VoteOutcome>) {
    outcome.Some? ==> outcome.value.result != Undecided && exists p :: Backed(hist, outcome.value, p)
  }

  ghost predicate StationOk(hist: seq<Event>, n: Node) {
    && n.config.nodeType == GcsNode
    && FromNetwork(hist, n.commands)
    && RequestOk(hist, n.request)
    && BallotsOk(hist, n.queue)
    && OutcomeOk(hist, n.outcome)
  }

  /** The recorded outcome is in the history. */
  ghost predicate OutcomeLogged(hist: seq<Event>, outcome: Option<VoteOutcome>) {
    outcome.Some? ==> exists c :: 0 <= c < |hist| && hist[c] == Recorded(outcome.value)
  }

  function Proposals(hist: seq<Event>): nat
    decreases |hist|
  {
    if hist == [] then 0 else Proposals(hist[..|hist| - 1]) + (if hist[|hist| - 1].Proposed? then 1 else 0)
  }

  ghost predicate ProposerOk(hist: seq<Event>, c: Controller.Proposer) {
    && c.activeTx == Proposals(hist)
    && c.nextTx == (Proposals(hist) + 1) % TWO_TO_THE_32
    && (forall p | 0 <= p < |hist| && hist[p].Proposed? :: hist[p].message.tx <= c.activeTx)
    && (forall k | 0 <= k < |hist| && hist[k].Ordered? :: hist[k].order.taskId <= c.activeTx)
    && (forall k | 0 <= k < |hist| && hist[k].Withdrawn? :: hist[k].tx <= c.activeTx)
    && (c.state == Controller.VotingState ==>
          && !Ended(hist, c.activeTx)
          && c.pendingOrder.taskId == c.activeTx
          && ProposedAs(hist, c.pendingOrder))
  }

  ghost predicate Inv(s: System) {
    && Legitimate(s.history)
    && StationOk(s.history, s.station)
    && OutcomeLogged(s.history, s.station.outcome)
    && ProposerOk(s.history, s.proposer)
    && (forall id | id in s.drones :: DroneOk(s.history, id, s.drones[id]))
  }
}
