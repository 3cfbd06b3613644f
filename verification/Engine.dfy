/**
 The Task Engine of one node as a function on its whole state.

 Three fields are history variables that the program itself does not keep: `nextId` numbers the
 task instances in order of creation, each slot records the life-cycle calls its instance has
 received, and `gone` keeps every instance that has left the queue.
 */
module Engine {
  import opened SwarmTypes
  import opened Motion
  import opened Tasks
  import opened PeerTable
  import Ballots

  datatype Call = Entered | Voted | Ran | Exited

  datatype Slot = Slot(id: nat, task: Task, calls: seq<Call>)

  datatype Request = Request(tx: uint32, voters: seq<uint8>)

  datatype VoteOutcome = VoteOutcome(tx: uint32, result: ConsensusResult, byTimeout: bool)

  datatype Node = Node(
    config: SwarmConfig,
    flight: Flight,
    queue: seq<Slot>,
    started: bool,
    inEmergency: bool,
    activeType: TaskType,
    commands: seq<Command>,
    request: Option<Request>,
    outcome: Option<VoteOutcome>,
    peers: Peers,
    nextId: nat,
    gone: seq<Slot>)

  /** init(): everything fresh; the starting battery comes from the environment. */
  function Boot(config: SwarmConfig, battery: uint8): Node {
    Node(config, Flight(0.0, 0.0, 0.0, 0.0, 0.0, 0.0, battery), [], false, false, InitType, [], None, None,
         map[], 0, [])
  }

  // ---------------------------------------------------------------------
  //  Queue primitives
  // ---------------------------------------------------------------------

  function Push(n: Node, t: Task): Node {
    n.(queue := n.queue + [Slot(n.nextId, t, [])], nextId := n.nextId + 1)
  }

  function Clear(n: Node): Node {
    n.(queue := [], gone := n.gone + n.queue)
  }

  /** The front instance after one call. */
  function Called(s: Slot, t: Task, c: Call): Slot {
    Slot(s.id, t, s.calls + [c])
  }

  function SetFront(n: Node, s: Slot): Node
    requires n.queue != []
  {
    n.(queue := n.queue[0 := s])
  }

  /** on_exit and pop_front. */
  function ExitFront(n: Node): Node
    requires n.queue != []
  {
    n.(queue := n.queue[1..], gone := n.gone + [Called(n.queue[0], n.queue[0].task, Exited)], started := false)
  }

  // ---------------------------------------------------------------------
  //  The parts of a step
  // ---------------------------------------------------------------------

  function ApplyRequest(n: Node): Node {
    match n.request
    case None => n
    case Some(r) =>
      Push(Clear(n).(request := None, started := false),
           Voting(Ballots.Open(r.tx, r.voters, Ballots.DEFAULT_TIMEOUT_MS)))
  }

  predicate CheckEmergency(n: Node) {
    n.flight.battery < CRITICAL_BATTERY || SomeoneLost(n.peers)
  }

  function PlaceEmergency(n: Node): Node {
    if n.inEmergency then n
    else Push(Push(Clear(n).(inEmergency := true, started := false), NewFailSafe()), NewLanding())
  }

  function HandleEmergency(n: Node): Node {
    if CheckEmergency(n) then PlaceEmergency(n) else n.(inEmergency := false)
  }

  /** The front task has become t by on_enter. */
  function Activate(n: Node, t: Task, f: Flight): Node
    requires n.queue != []
  {
    SetFront(n, Called(n.queue[0], t, Entered)).(flight := f, started := true, activeType := TypeOf(t))
  }

  function StartActive(n: Node, now: TimePoint): Node {
    if n.queue == [] then n
    else
      var (t, f) := EnterTask(n.queue[0].task, now, n.flight);
      Activate(n, t, f)
  }

  /** An empty queue falls back to Idle. */
  function Fill(n: Node): Node {
    if n.queue == [] then Push(n, Idle).(started := false) else n
  }

  function Prepare(n: Node, now: TimePoint): (m: Node)
    ensures m.queue != [] && m.started
  {
    var filled := Fill(n);
    if filled.started then filled else StartActive(filled, now)
  }

  function OwnVote(n: Node): Vote {
    if n.flight.battery < CRITICAL_BATTERY then Nack else Ack
  }

  function VoteOnProposal(n: Node, proposal: ConsensusMessage): seq<ConsensusMessage> {
    if n.config.faultSilent then []
    else [ConsensusMessage(proposal.tx, n.config.droneId, OwnVote(n), proposal.seqNum)]
  }

  /** The active vote collector, when it is the one m belongs to. */
  predicate ActiveVoting(n: Node, m: ConsensusMessage) {
    n.queue != [] && n.queue[0].task.Voting? && n.queue[0].task.ballot.tx == m.tx
  }

  function DeliverVote(n: Node, m: ConsensusMessage): Node
    requires ActiveVoting(n, m)
  {
    var s := n.queue[0];
    SetFront(n, Called(s, Voting(Ballots.OnVote(s.task.ballot, Ballots.Cast(m.sender, m.vote))), Voted))
  }

  function ProcessConsensus(n: Node, m: ConsensusMessage): (Node, seq<ConsensusMessage>) {
    if m.sender == n.config.droneId then (n, [])
    else if m.vote == Pending then (n, if n.config.nodeType == DroneNode then VoteOnProposal(n, m) else [])
    else if ActiveVoting(n, m) then (DeliverVote(n, m), [])
    else (n, [])
  }

  function ProcessOrder(n: Node, order: TaskOrder): Node {
    match CreateTask(order, n.config)
    case None => n
    case Some(t) => Push(if n.queue != [] && n.queue[0].task.Idle? then ExitFront(n) else n, t)
  }

  function ProcessCommand(n: Node, c: Command): (r: (Node, seq<ConsensusMessage>))
    ensures r.0.commands == n.commands
  {
    match c
    case ConsensusCommand(m) => ProcessConsensus(n, m)
    case OrderCommand(order) => (ProcessOrder(n, order), [])
  }

  /** process_pending_commands: the state afterwards and the votes published on the way. */
  function Drain(n: Node): (r: (Node, seq<ConsensusMessage>))
    ensures r.0.commands == []
    decreases |n.commands|
  {
    if n.commands == [] then (n, [])
    else
      var (n1, sent) := ProcessCommand(n.(commands := n.commands[1..]), n.commands[0]);
      var (n2, more) := Drain(n1);
      (n2, sent + more)
  }

  /** The front task has become t by run. */
  function Advanced(n: Node, t: Task, f: Flight): Node
    requires n.queue != []
  {
    SetFront(n, Called(n.queue[0], t, Ran)).(flight := f)
  }

  function RecordOutcome(n: Node, t: Task): Node {
    if t.Voting? then n.(outcome := Some(VoteOutcome(t.ballot.tx, t.ballot.result, t.ballot.byTimeout))) else n
  }

  predicate Aborts(t: Task) {
    t.Voting? && t.ballot.result == Aborted
  }

  /** After a run: a finished front is recorded and leaves; an abort takes the whole queue with it. */
  function Conclude(n: Node, now: TimePoint): Node
    requires n.queue != []
  {
    var t := n.queue[0].task;
    if !IsFinished(t) then n
    else
      var exited := ExitFront(RecordOutcome(n, t));
      if Aborts(t) then Clear(exited) else StartActive(exited, now)
  }

  function RunFront(n: Node, now: TimePoint, h: Hypot): Node
    requires n.queue != []
  {
    var (t, f) := RunTask(n.queue[0].task, now, n.flight, h);
    Conclude(Advanced(n, t, f), now)
  }

  /** Requests and emergencies first, then the front task is entered. */
  function Settle(n: Node, now: TimePoint): Node {
    Prepare(HandleEmergency(ApplyRequest(n)), now)
  }

  /** The state in which the front task is run. */
  function Ready(n: Node, now: TimePoint): Node {
    Prepare(Drain(Settle(n, now)).0, now)
  }

  function Step(n: Node, now: TimePoint, h: Hypot): Node {
    RunFront(Ready(n, now), now, h)
  }

  function Published(n: Node, now: TimePoint): seq<ConsensusMessage> {
    Drain(Settle(n, now)).1
  }

  // ---------------------------------------------------------------------
  //  Everything that can happen to a node
  // ---------------------------------------------------------------------

  datatype Action =
    | Tick(now: TimePoint)
    | AddCommand(c: Command)
    | RequestConsensus(r: Request)
    | PushTask(t: Task)
    | HeartbeatArrives(hb: Heartbeat, now: TimePoint)
    | TelemetryArrives(telemetry: Telemetry, now: TimePoint)
    | RefreshPeers(now: TimePoint)
    | SetBattery(level: uint8)

  function Act(n: Node, a: Action, h: Hypot): Node {
    match a
    case Tick(now) => Step(n, now, h)
    case AddCommand(c) => n.(commands := n.commands + [c])
    case RequestConsensus(r) => n.(request := Some(r))
    case PushTask(t) => Push(n, t)
    case HeartbeatArrives(hb, now) =>
      if hb.droneId == n.config.droneId then n else n.(peers := OnHeartbeat(n.peers, hb, now))
    case TelemetryArrives(t, now) =>
      if t.droneId == n.config.droneId then n else n.(peers := OnTelemetry(n.peers, t, now).peers)
    case RefreshPeers(now) => n.(peers := Refresh(n.peers, now, HEARTBEAT_TIMEOUT_MS))
    case SetBattery(level) => n.(flight := n.flight.(battery := level))
  }

  /** A run: the actions in order. */
  function Execute(n: Node, actions: seq<Action>, h: Hypot): Node
    decreases |actions|
  {
    if actions == [] then n
    else Act(Execute(n, actions[..|actions| - 1], h), actions[|actions| - 1], h)
  }

  lemma ExecuteSnoc(n: Node, actions: seq<Action>, a: Action, h: Hypot)
    ensures Execute(n, actions + [a], h) == Act(Execute(n, actions, h), a, h)
  {
    assert (actions + [a])[..|actions|] == actions;
  }

  /** The actions a drone meets in operation: nobody but the ground station asks for a vote. */
  predicate DroneAction(a: Action) {
    !a.RequestConsensus? && !a.PushTask?
  }

  /** The actions the ground station meets in operation. */
  predicate StationAction(a: Action) {
    !a.PushTask?
  }

  /** Time of the last tick of a run whose clock stood at `from`. */
  function LastTick(from: TimePoint, actions: seq<Action>): TimePoint
    decreases |actions|
  {
    if actions == [] then from
    else if actions[|actions| - 1].Tick? then actions[|actions| - 1].now
    else LastTick(from, actions[..|actions| - 1])
  }

  /** The times of a run's ticks. */
  function TickTimes(actions: seq<Action>): seq<TimePoint>
    decreases |actions|
  {
    if actions == [] then []
    else
      var a := actions[|actions| - 1];
      TickTimes(actions[..|actions| - 1]) + (if a.Tick? then [a.now] else [])
  }

  /** The clock of the ticks does not go backwards. */
  ghost predicate Timely(from: TimePoint, actions: seq<Action>)
    decreases |actions|
  {
    actions != [] ==>
      var front, a := actions[..|actions| - 1], actions[|actions| - 1];
      Timely(from, front) && (a.Tick? ==> LastTick(from, front) <= a.now)
  }

  /** No emergency begins at this step. */
  predicate NoRisingEdge(n: Node) {
    CheckEmergency(n) ==> n.inEmergency
  }

  // ---------------------------------------------------------------------
  //  What no part of a step changes
  // ---------------------------------------------------------------------

  /** Identity, battery and peer table are the environment's. */
  ghost predicate SameNode(n: Node, m: Node) {
    n.config == m.config && n.flight.battery == m.flight.battery && n.peers == m.peers
  }

  lemma ApplyRequestFrame(n: Node)
    ensures SameNode(n, ApplyRequest(n))
  {
  }

  lemma HandleEmergencyFrame(n: Node)
    ensures SameNode(n, HandleEmergency(n))
  {
  }

  lemma PrepareFrame(n: Node, now: TimePoint)
    ensures SameNode(n, Prepare(n, now))
  {
  }

  lemma {:induction false} DrainFrame(n: Node)
    ensures SameNode(n, Drain(n).0)
    ensures Drain(n).0.flight == n.flight
    decreases |n.commands|
  {
    if n.commands != [] {
      var rest := n.(commands := n.commands[1..]);
      DrainFrame(ProcessCommand(rest, n.commands[0]).0);
    }
  }

  lemma ConcludeFrame(n: Node, now: TimePoint)
    requires n.queue != []
    ensures SameNode(n, Conclude(n, now))
  {
  }

  lemma RunFrontFrame(n: Node, now: TimePoint, h: Hypot)
    requires n.queue != []
    ensures SameNode(n, RunFront(n, now, h))
  {
    RunKeepsKind(n.queue[0].task, now, n.flight, h);
    var (t, f) := RunTask(n.queue[0].task, now, n.flight, h);
    ConcludeFrame(Advanced(n, t, f), now);
  }

  lemma SettleFrame(n: Node, now: TimePoint)
    ensures SameNode(n, Settle(n, now))
  {
    ApplyRequestFrame(n);
    HandleEmergencyFrame(ApplyRequest(n));
    PrepareFrame(HandleEmergency(ApplyRequest(n)), now);
  }

  lemma StepFrame(n: Node, now: TimePoint, h: Hypot)
    ensures SameNode(n, Step(n, now, h))
  {
    var settled := Settle(n, now);
    SettleFrame(n, now);
    DrainFrame(settled);
    PrepareFrame(Drain(settled).0, now);
    RunFrontFrame(Ready(n, now), now, h);
  }

  lemma ActKeepsConfig(n: Node, a: Action, h: Hypot)
    ensures Act(n, a, h).config == n.config
  {
    if a.Tick? {
      StepFrame(n, a.now, h);
    }
  }

  // ---------------------------------------------------------------------
  //  What waits: the command queue and the requested vote
  // ---------------------------------------------------------------------

  ghost predicate SameWaiting(n: Node, m: Node) {
    m.commands == n.commands && m.request == n.request
  }

  lemma PrepareWaiting(n: Node, now: TimePoint)
    ensures SameWaiting(n, Prepare(n, now))
  {
  }

  lemma RunFrontWaiting(n: Node, now: TimePoint, h: Hypot)
    requires n.queue != []
    ensures SameWaiting(n, RunFront(n, now, h))
  {
  }

  lemma SettleTakesRequest(n: Node, now: TimePoint)
    ensures Settle(n, now).commands == n.commands && Settle(n, now).request == None
  {
    PrepareWaiting(HandleEmergency(ApplyRequest(n)), now);
  }

  lemma {:induction false} DrainKeepsRequest(n: Node)
    ensures Drain(n).0.request == n.request
    decreases |n.commands|
  {
    if n.commands != [] {
      DrainKeepsRequest(ProcessCommand(n.(commands := n.commands[1..]), n.commands[0]).0);
    }
  }

  /** A step takes up everything that was waiting. */
  lemma StepTakesAll(n: Node, now: TimePoint, h: Hypot)
    ensures Step(n, now, h).commands == [] && Step(n, now, h).request == None
    ensures Ready(n, now).request == None
  {
    SettleTakesRequest(n, now);
    DrainKeepsRequest(Settle(n, now));
    PrepareWaiting(Drain(Settle(n, now)).0, now);
    RunFrontWaiting(Ready(n, now), now, h);
  }

  // ---------------------------------------------------------------------
  //  The ground station casts no votes
  // ---------------------------------------------------------------------

  lemma {:induction false} StationDrainIsSilent(n: Node)
    requires n.config.nodeType == GcsNode
    ensures Drain(n).1 == []
    decreases |n.commands|
  {
    if n.commands != [] {
      var rest := n.(commands := n.commands[1..]);
      StationDrainIsSilent(ProcessCommand(rest, n.commands[0]).0);
    }
  }

  lemma StationPublishesNothing(n: Node, now: TimePoint)
    requires n.config.nodeType == GcsNode
    ensures Published(n, now) == []
  {
    SettleFrame(n, now);
    StationDrainIsSilent(Settle(n, now));
  }

  // ---------------------------------------------------------------------
  //  What a step leaves in place while the front task goes on
  // ---------------------------------------------------------------------

  predicate SamePlace(f: Flight, g: Flight) {
    f.x == g.x && f.y == g.y
  }

  /** Entering the next task moves nothing. */
  lemma LeavesPosition(n: Node, now: TimePoint)
    ensures SamePlace(StartActive(n, now).flight, n.flight) && StartActive(n, now).flight.z == n.flight.z
    ensures n.flight.Still() ==> StartActive(n, now).flight.Still()
    ensures StartActive(n, now).gone == n.gone
  {
  }

  /** Without a request or a new emergency an entered front stays. */
  lemma SettleUndisturbed(n: Node, now: TimePoint)
    requires n.request == None && NoRisingEdge(n) && n.queue != [] && n.started
    ensures var s := Settle(n, now);
            && s.queue == n.queue && s.flight == n.flight && s.gone == n.gone && s.started
            && s.inEmergency == CheckEmergency(n)
  {
  }

  lemma {:induction false} DrainKeepsFront(n: Node)
    requires n.queue != [] && !n.queue[0].task.Idle?
    ensures var d := Drain(n).0;
            && d.queue != [] && !d.queue[0].task.Idle? && d.started == n.started
            && d.nextId >= n.nextId && d.gone == n.gone
    decreases |n.commands|
  {
    if n.commands != [] {
      var rest := n.(commands := n.commands[1..]);
      DrainKeepsFront(ProcessCommand(rest, n.commands[0]).0);
    }
  }
}
