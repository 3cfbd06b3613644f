/**
 Where the controller's open vote stands, in every reachable state of the system: requested, being
 collected, decided, or lost to an emergency that began during it.
 */
module VotePhases {
  import opened SwarmTypes
  import opened Motion
  import opened Engine
  import opened Swarm
  import Ballots
  import Controller
  import Decision
  import MissionLoop
  import PeerTable
  import QueueShape
  import SwarmTheorems

  datatype Phase = Requested | Collecting | Answered | Lost

  ghost predicate InPhase(n: Node, tx: uint32, phase: Phase) {
    match phase
    case Requested => n.request.Some? && n.request.value.tx == tx
    case Collecting => n.request == None && exists b :: Decision.Pends(n, b) && b.tx == tx
    case Answered => Controller.Answers(n.outcome, tx)
    case Lost => n.request == None && Decision.NoCollectorQueued(n) && !Controller.Answers(n.outcome, tx)
  }

  // ---------------------------------------------------------------------
  //  The invariant that links controller and Task Engine
  // ---------------------------------------------------------------------

  ghost predicate CollectorTracked(n: Node, b: Ballots.Ballot, tx: uint32, voting: bool) {
    && b.timeoutMs == Ballots.DEFAULT_TIMEOUT_MS && b.result == Undecided
    && !Controller.Answers(n.outcome, b.tx)
    && (n.request.Some? ==> b.tx < tx)
    && (n.request == None ==> b.tx == tx && voting)
  }

  /** The station of a controller whose active transaction is tx, still voting or not. */
  ghost predicate Tracked(n: Node, tx: uint32, voting: bool) {
    && n.config.nodeType == GcsNode && QueueShape.AtRest(n)
    && (n.request.Some? ==> voting && n.request.value.tx == tx && !Controller.Answers(n.outcome, tx))
    && (forall i | 0 <= i < |n.queue| && n.queue[i].task.Voting? ::
          CollectorTracked(n, n.queue[i].task.ballot, tx, voting))
    && (n.outcome.Some? ==> n.outcome.value.tx <= tx && n.outcome.value.result != Undecided)
  }

  ghost predicate VoteTracked(s: System) {
    Tracked(s.station, s.proposer.activeTx, s.proposer.state == Controller.VotingState)
  }

  lemma PolledIdentity(n: Node, b: Ballots.Ballot, now: TimePoint)
    ensures var p := Decision.Polled(n, b, now); p.tx == b.tx && p.timeoutMs == b.timeoutMs && p.start == b.start
  {
    Decision.CollectKeepsIdentity(b, Decision.VotesFor(n.commands, n.config.droneId, b.tx));
  }

  /** Once polled, a vote on tx is tracked: it goes on undecided or its outcome is on record. */
  lemma PolledIsTracked(m: Node, p: Ballots.Ballot, tx: uint32)
    requires m.config.nodeType == GcsNode && QueueShape.AtRest(m) && m.request == None
    requires p.tx == tx && p.timeoutMs == Ballots.DEFAULT_TIMEOUT_MS
    requires if p.result != Undecided then Decision.Recorded(m, p)
             else && Decision.Pends(m, p)
                  && (m.outcome.Some? ==> m.outcome.value.tx <= tx && m.outcome.value.result != Undecided)
                  && !Controller.Answers(m.outcome, tx)
    ensures Tracked(m, tx, true)
    ensures InPhase(m, tx, if p.result != Undecided then Answered else Collecting)
  {
  }

  /** The collector of a station at rest, if there is one, is its whole queue and has been entered. */
  lemma CollectorInFront(n: Node, tx: uint32, voting: bool)
    requires Tracked(n, tx, voting)
    ensures !Decision.NoCollectorQueued(n) ==>
              && n.queue != [] && n.queue[0].task.Voting?
              && Decision.Pends(n, n.queue[0].task.ballot)
  {
  }

  // ---------------------------------------------------------------------
  //  The station's step
  // ---------------------------------------------------------------------

  /** What a step does to the phase of the open vote: only a new emergency can lose it. */
  ghost predicate PhaseStep(n: Node, m: Node, tx: uint32) {
    && (InPhase(n, tx, Answered) ==> InPhase(m, tx, Answered))
    && (InPhase(n, tx, Lost) ==> InPhase(m, tx, Lost))
    && (InPhase(n, tx, Requested) || InPhase(n, tx, Collecting) ==>
          if NoRisingEdge(n) then InPhase(m, tx, Collecting) || InPhase(m, tx, Answered) else InPhase(m, tx, Lost))
  }

  lemma RequestedStep(n: Node, tx: uint32, voting: bool, now: TimePoint, h: Hypot)
    requires Tracked(n, tx, voting) && n.request.Some? && NoRisingEdge(n) && QueueShape.AtRest(Step(n, now, h))
    ensures Tracked(Step(n, now, h), tx, voting) && PhaseStep(n, Step(n, now, h), tx)
  {
    var r := n.request.value;
    var b := Ballots.Enter(Ballots.Open(r.tx, r.voters, Ballots.DEFAULT_TIMEOUT_MS), now);
    Decision.RequestedVoteStep(n, r, now, h);
    StepFrame(n, now, h);
    PolledIdentity(n, b, now);
    PolledIsTracked(Step(n, now, h), Decision.Polled(n, b, now), tx);
  }

  lemma CollectingStep(n: Node, tx: uint32, voting: bool, now: TimePoint, h: Hypot)
    requires Tracked(n, tx, voting) && n.request == None && !Decision.NoCollectorQueued(n) && NoRisingEdge(n)
    requires QueueShape.AtRest(Step(n, now, h))
    ensures Tracked(Step(n, now, h), tx, voting) && PhaseStep(n, Step(n, now, h), tx)
  {
    CollectorInFront(n, tx, voting);
    var b := n.queue[0].task.ballot;
    Decision.OngoingVoteStep(n, b, now, h);
    StepFrame(n, now, h);
    PolledIdentity(n, b, now);
    PolledIsTracked(Step(n, now, h), Decision.Polled(n, b, now), tx);
  }

  lemma QuietIsTracked(n: Node, m: Node, tx: uint32, voting: bool)
    requires Tracked(n, tx, voting) && Decision.Quiet(n, m) && m.config == n.config && QueueShape.AtRest(m)
    requires !NoRisingEdge(n) || (n.request == None && Decision.NoCollectorQueued(n))
    ensures Tracked(m, tx, voting) && PhaseStep(n, m, tx)
  {
    if n.request == None && Decision.NoCollectorQueued(n) {
      assert !InPhase(n, tx, Collecting);
    }
    if n.request == None && !Decision.NoCollectorQueued(n) {
      CollectorInFront(n, tx, voting);
    }
  }

  lemma TickTracked(n: Node, tx: uint32, voting: bool, now: TimePoint, h: Hypot)
    requires Tracked(n, tx, voting)
    ensures Tracked(Step(n, now, h), tx, voting) && PhaseStep(n, Step(n, now, h), tx)
  {
    QueueShape.StepAtRest(n, now, h);
    if !NoRisingEdge(n) {
      Decision.AlarmDiscardsVote(n, now, h);
      QuietIsTracked(n, Step(n, now, h), tx, voting);
    } else if n.request.Some? {
      RequestedStep(n, tx, voting, now, h);
    } else if Decision.NoCollectorQueued(n) {
      Decision.QuietStep(n, now, h);
      QuietIsTracked(n, Step(n, now, h), tx, voting);
    } else {
      CollectingStep(n, tx, voting, now, h);
    }
  }

  // ---------------------------------------------------------------------
  //  Every move of the system
  // ---------------------------------------------------------------------

  lemma ArrivalTracked(n: Node, a: Action, tx: uint32, voting: bool, h: Hypot)
    requires Tracked(n, tx, voting) && !a.Tick? && !a.PushTask? && !a.RequestConsensus?
    ensures var m := Act(n, a, h);
            Tracked(m, tx, voting) && m.queue == n.queue && m.request == n.request && m.outcome == n.outcome
            && m.started == n.started && m.config == n.config
  {
    QueueShape.ArrivalAtRest(n, a, h);
    QueueShape.ActAtRest(n, a, h);
  }

  /** A new proposal: the next number, above everything the station still holds. */
  lemma ProposalTracked(n: Node, c: Controller.Proposer, r: Request)
    requires Tracked(n, c.activeTx, c.state == Controller.VotingState)
    requires r.tx == c.nextTx && c.nextTx == c.activeTx + 1
    ensures Tracked(n.(request := Some(r)), c.nextTx, true) && InPhase(n.(request := Some(r)), c.nextTx, Requested)
  {
  }

  lemma ControllerTracked(n: Node, c: Controller.Proposer)
    requires Tracked(n, c.activeTx, c.state == Controller.VotingState)
    ensures var after := Controller.StepController(c, n.outcome).0;
            && Tracked(n, after.activeTx, after.state == Controller.VotingState)
            && after.activeTx == c.activeTx
            && (c.state == Controller.VotingState ==>
                  (after.state == Controller.VotingState <==> !InPhase(n, c.activeTx, Answered)))
  {
  }

  /** No wrap-around yet: the next number is one above the active one. */
  ghost predicate Numbered(s: System) {
    s.proposer.nextTx == s.proposer.activeTx + 1
  }

  lemma MoveTracked(s: System, m: Move, h: Hypot)
    requires VoteTracked(s) && (m.ProposeTask? ==> Numbered(s))
    ensures VoteTracked(Apply(s, m, h))
  {
    if Enabled(s, m) {
      var n, tx, voting := s.station, s.proposer.activeTx, s.proposer.state == Controller.VotingState;
      match m
      case StationActs(a) =>
        if a.Tick? {
          TickTracked(n, tx, voting, a.now, h);
        } else {
          ArrivalTracked(n, a, tx, voting, h);
        }
      case DeliverToStation(event) =>
        ArrivalTracked(n, AddCommand(Deliverable(s.history[event]).value), tx, voting, h);
      case ProposeTask(role, x, y) => ProposalTracked(n, s.proposer, Propose(s, role, x, y).station.request.value);
      case ControllerSteps => ControllerTracked(n, s.proposer);
      case _ =>
    }
  }

  lemma NextTracked(s: System, m: Move, h: Hypot)
    requires VoteTracked(s) && ProposerOk(s.history, s.proposer)
    requires Proposals(Apply(s, m, h).history) < TWO_TO_THE_32
    ensures VoteTracked(Apply(s, m, h))
  {
    if m.ProposeTask? {
      ProposingIsNumbered(s, m.role, m.x, m.y);
    }
    MoveTracked(s, m, h);
  }

  lemma {:induction false} ReachableTracked(s0: System, moves: seq<Move>, h: Hypot)
    requires Initial(s0) && Proposals(Run(s0, moves, h).history) < TWO_TO_THE_32
    ensures VoteTracked(Run(s0, moves, h))
    decreases |moves|
  {
    if moves == [] {
      InitialTracked(s0);
    } else {
      var front, m := moves[..|moves| - 1], moves[|moves| - 1];
      var more := SwarmTheorems.HistoryGrows(Run(s0, front, h), m, h);
      SwarmTheorems.ProposalsGrow(Run(s0, front, h).history, more);
      ReachableTracked(s0, front, h);
      SwarmTheorems.ReachableInv(s0, front, h);
      NextTracked(Run(s0, front, h), m, h);
    }
  }

  lemma ProposingIsNumbered(s: System, role: DroneRole, x: real, y: real)
    requires ProposerOk(s.history, s.proposer) && Proposals(Propose(s, role, x, y).history) < TWO_TO_THE_32
    ensures Numbered(s)
  {
    var all := Propose(s, role, x, y).history;
    assert all[..|all| - 1] == s.history;
  }

  // ---------------------------------------------------------------------
  //  The theorems
  // ---------------------------------------------------------------------

  /** Exactly one phase describes the station. */
  ghost predicate OnePhase(n: Node, tx: uint32, phase: Phase) {
    forall p: Phase :: InPhase(n, tx, p) <==> p == phase
  }

  lemma TrackedHasOnePhase(n: Node, tx: uint32) returns (phase: Phase)
    requires Tracked(n, tx, true)
    ensures OnePhase(n, tx, phase)
  {
    CollectorInFront(n, tx, true);
    if n.request.Some? {
      phase := Requested;
    } else if Controller.Answers(n.outcome, tx) {
      phase := Answered;
    } else if Decision.NoCollectorQueued(n) {
      phase := Lost;
    } else {
      phase := Collecting;
    }
  }

  /**
   In every reachable state in which the controller is voting, exactly one of four things holds of
   its active transaction: the vote is requested and waits for the next step, its entered collector
   is in front and undecided, its outcome is on record, or it was lost.
   */
  lemma OpenVoteHasOnePhase(s0: System, moves: seq<Move>, h: Hypot) returns (phase: Phase)
    requires Initial(s0) && Proposals(Run(s0, moves, h).history) < TWO_TO_THE_32
    requires Run(s0, moves, h).proposer.state == Controller.VotingState
    ensures OnePhase(Run(s0, moves, h).station, Run(s0, moves, h).proposer.activeTx, phase)
  {
    ReachableTracked(s0, moves, h);
    phase := TrackedHasOnePhase(Run(s0, moves, h).station, Run(s0, moves, h).proposer.activeTx);
  }

  /** The controller is voting on a transaction in this phase. */
  ghost predicate OpenIn(s: System, phase: Phase) {
    s.proposer.state == Controller.VotingState && InPhase(s.station, s.proposer.activeTx, phase)
  }

  /** A step of the station at which an emergency begins while the vote is undecided. */
  ghost predicate Strikes(s: System, m: Move) {
    && m.StationActs? && m.a.Tick? && !NoRisingEdge(s.station)
    && (InPhase(s.station, s.proposer.activeTx, Requested) || InPhase(s.station, s.proposer.activeTx, Collecting))
  }

  /** The one way to lose a vote: a move loses it if and only if it is a step at which an emergency begins. */
  lemma LostIffStruck(s: System, m: Move, h: Hypot)
    requires VoteTracked(s) && s.proposer.state == Controller.VotingState && !OpenIn(s, Lost)
    requires m.ProposeTask? ==> Numbered(s)
    ensures OpenIn(Apply(s, m, h), Lost) <==> Strikes(s, m)
  {
    var n, tx := s.station, s.proposer.activeTx;
    var phase := TrackedHasOnePhase(n, tx);
    MoveTracked(s, m, h);
    var s' := Apply(s, m, h);
    if s'.proposer.state == Controller.VotingState {
      var phase' := TrackedHasOnePhase(s'.station, s'.proposer.activeTx);
    }
    if Enabled(s, m) {
      match m
      case StationActs(a) =>
        if a.Tick? {
          TickTracked(n, tx, true, a.now, h);
        } else {
          ArrivalTracked(n, a, tx, true, h);
        }
      case DeliverToStation(event) =>
        ArrivalTracked(n, AddCommand(Deliverable(s.history[event]).value), tx, true, h);
      case ProposeTask(role, x, y) => ProposalTracked(n, s.proposer, Propose(s, role, x, y).station.request.value);
      case ControllerSteps => ControllerTracked(n, s.proposer);
      case _ =>
    }
  }

  lemma LostIffStruckOverRuns(s0: System, moves: seq<Move>, m: Move, h: Hypot)
    requires Initial(s0) && Proposals(Apply(Run(s0, moves, h), m, h).history) < TWO_TO_THE_32
    requires Run(s0, moves, h).proposer.state == Controller.VotingState && !OpenIn(Run(s0, moves, h), Lost)
    ensures OpenIn(Apply(Run(s0, moves, h), m, h), Lost) <==> Strikes(Run(s0, moves, h), m)
  {
    var s := Run(s0, moves, h);
    var more := SwarmTheorems.HistoryGrows(s, m, h);
    SwarmTheorems.ProposalsGrow(s.history, more);
    ReachableTracked(s0, moves, h);
    SwarmTheorems.ReachableInv(s0, moves, h);
    LostIffStruckNext(s, m, h);
  }

  lemma LostIffStruckNext(s: System, m: Move, h: Hypot)
    requires VoteTracked(s) && ProposerOk(s.history, s.proposer) && Proposals(Apply(s, m, h).history) < TWO_TO_THE_32
    requires s.proposer.state == Controller.VotingState && !OpenIn(s, Lost)
    ensures OpenIn(Apply(s, m, h), Lost) <==> Strikes(s, m)
  {
    if m.ProposeTask? {
      ProposingIsNumbered(s, m.role, m.x, m.y);
    }
    LostIffStruck(s, m, h);
  }

  /**
   The exact condition for a timely decision, in the system.  At or past the deadline of the open
   vote, one step of the station and one of the controller end the voting if and only if no
   emergency begins at that step; if one does, the vote is lost.
   */
  lemma DecidedInSystemIffNoAlarm(s0: System, moves: seq<Move>, b: Ballots.Ballot, now: TimePoint, h: Hypot)
    requires Initial(s0) && Proposals(Run(s0, moves, h).history) < TWO_TO_THE_32
    requires OpenIn(Run(s0, moves, h), Collecting) && Decision.Pends(Run(s0, moves, h).station, b)
    requires now >= b.start + Ballots.DEFAULT_TIMEOUT_MS * NS_PER_MS
    ensures var s := Run(s0, moves, h);
            var polled := Apply(Apply(s, StationActs(Tick(now)), h), ControllerSteps, h);
            && (polled.proposer.state != Controller.VotingState <==> NoRisingEdge(s.station))
            && (OpenIn(polled, Lost) <==> !NoRisingEdge(s.station))
  {
    ReachableTracked(s0, moves, h);
    DecidedFromTracked(Run(s0, moves, h), b, now, h);
  }

  lemma DecidedFromTracked(s: System, b: Ballots.Ballot, now: TimePoint, h: Hypot)
    requires VoteTracked(s) && OpenIn(s, Collecting) && Decision.Pends(s.station, b)
    requires now >= b.start + Ballots.DEFAULT_TIMEOUT_MS * NS_PER_MS
    ensures var polled := Apply(Apply(s, StationActs(Tick(now)), h), ControllerSteps, h);
            && (polled.proposer.state != Controller.VotingState <==> NoRisingEdge(s.station))
            && (OpenIn(polled, Lost) <==> !NoRisingEdge(s.station))
  {
    var n, tx := s.station, s.proposer.activeTx;
    assert CollectorTracked(n, n.queue[0].task.ballot, tx, true);
    Decision.DecidedIffNoAlarm(n, b, now, h);
    TickTracked(n, tx, true, now, h);
    var ticked := Apply(s, StationActs(Tick(now)), h);
    assert ticked.station == Step(n, now, h) && ticked.proposer == s.proposer;
    ControllerTracked(ticked.station, s.proposer);
  }

  // ---------------------------------------------------------------------
  //  Every way to discard a vote
  // ---------------------------------------------------------------------

  /** The vote on tx is requested, or its collector is in the queue, undecided. */
  ghost predicate Standing(n: Node, tx: uint32) {
    || (n.request.Some? && n.request.value.tx == tx)
    || (exists b :: Decision.Pends(n, b) && b.tx == tx)
  }

  /** The vote on tx is neither standing nor decided. */
  ghost predicate Discarded(n: Node, tx: uint32) {
    !Standing(n, tx) && !Controller.Answers(n.outcome, tx)
  }

  ghost predicate StationTicks(m: Move) {
    m.StationActs? && m.a.Tick?
  }

  /** A newer proposal overwrites the request for tx, or its collector makes way at the next step. */
  ghost predicate Supersedes(s: System, m: Move, tx: uint32) {
    var request := s.station.request;
    || (m.ProposeTask? && request.Some? && request.value.tx == tx)
    || (StationTicks(m) && request.Some? && request.value.tx != tx)
  }

  lemma RequestSupersedes(n: Node, active: uint32, voting: bool, tx: uint32, now: TimePoint, h: Hypot)
    requires Tracked(n, active, voting) && Standing(n, tx) && NoRisingEdge(n)
    requires n.request.Some? && n.request.value.tx != tx
    ensures Discarded(Step(n, now, h), tx)
  {
    var r := n.request.value;
    var b := Ballots.Enter(Ballots.Open(r.tx, r.voters, Ballots.DEFAULT_TIMEOUT_MS), now);
    Decision.RequestedVoteStep(n, r, now, h);
    PolledIdentity(n, b, now);
  }

  lemma TickDiscards(n: Node, active: uint32, voting: bool, tx: uint32, now: TimePoint, h: Hypot)
    requires Tracked(n, active, voting) && Standing(n, tx)
    ensures Discarded(Step(n, now, h), tx) <==> !NoRisingEdge(n) || (n.request.Some? && n.request.value.tx != tx)
  {
    if !NoRisingEdge(n) {
      Decision.AlarmDiscardsVote(n, now, h);
    } else if n.request.Some? && n.request.value.tx != tx {
      RequestSupersedes(n, active, voting, tx, now, h);
    } else {
      TickTracked(n, active, voting, now, h);
      PhaseStands(Step(n, now, h), tx);
    }
  }

  lemma PhaseStands(n: Node, tx: uint32)
    ensures InPhase(n, tx, Collecting) || InPhase(n, tx, Answered) ==> !Discarded(n, tx)
  {
  }

  /** A move discards a standing vote if and only if an emergency begins at it or a newer proposal supersedes it. */
  lemma DiscardedIffStruckOrSuperseded(s: System, m: Move, tx: uint32, h: Hypot)
    requires VoteTracked(s) && Standing(s.station, tx) && (m.ProposeTask? ==> Numbered(s))
    ensures Discarded(Apply(s, m, h).station, tx)
       <==> (StationTicks(m) && !NoRisingEdge(s.station)) || Supersedes(s, m, tx)
  {
    var n, active, voting := s.station, s.proposer.activeTx, s.proposer.state == Controller.VotingState;
    if Enabled(s, m) {
      match m
      case StationActs(a) =>
        if a.Tick? {
          TickDiscards(n, active, voting, tx, a.now, h);
        } else {
          ArrivalTracked(n, a, active, voting, h);
        }
      case DeliverToStation(event) =>
        var c := Deliverable(s.history[event]).value;
        ArrivalTracked(n, AddCommand(c), active, voting, h);
      case ProposeTask(role, x, y) => ProposalDiscards(s, role, x, y, tx);
      case _ =>
    }
  }

  lemma ProposalDiscards(s: System, role: DroneRole, x: real, y: real, tx: uint32)
    requires VoteTracked(s) && Standing(s.station, tx) && Numbered(s)
    ensures Discarded(Propose(s, role, x, y).station, tx)
       <==> s.station.request.Some? && s.station.request.value.tx == tx
  {
    var n, m := s.station, Propose(s, role, x, y).station;
    if n.request.Some? && n.request.value.tx == tx {
      assert forall b | Decision.Pends(m, b) :: Decision.Pends(n, b) && b == n.queue[0].task.ballot;
    } else {
      var b :| Decision.Pends(n, b) && b.tx == tx;
      assert Decision.Pends(m, b);
    }
  }

  /** The same in every reachable state, for every transaction whose vote is standing. */
  lemma DiscardedOverRuns(s0: System, moves: seq<Move>, m: Move, tx: uint32, h: Hypot)
    requires Initial(s0) && Proposals(Apply(Run(s0, moves, h), m, h).history) < TWO_TO_THE_32
    requires Standing(Run(s0, moves, h).station, tx)
    ensures var s := Run(s0, moves, h);
            Discarded(Apply(s, m, h).station, tx)
            <==> (StationTicks(m) && !NoRisingEdge(s.station)) || Supersedes(s, m, tx)
  {
    var s := Run(s0, moves, h);
    var more := SwarmTheorems.HistoryGrows(s, m, h);
    SwarmTheorems.ProposalsGrow(s.history, more);
    ReachableTracked(s0, moves, h);
    SwarmTheorems.ReachableInv(s0, moves, h);
    DiscardedNext(s, m, tx, h);
  }

  lemma DiscardedNext(s: System, m: Move, tx: uint32, h: Hypot)
    requires VoteTracked(s) && ProposerOk(s.history, s.proposer) && Proposals(Apply(s, m, h).history) < TWO_TO_THE_32
    requires Standing(s.station, tx)
    ensures Discarded(Apply(s, m, h).station, tx)
       <==> (StationTicks(m) && !NoRisingEdge(s.station)) || Supersedes(s, m, tx)
  {
    if m.ProposeTask? {
      ProposingIsNumbered(s, m.role, m.x, m.y);
    }
    DiscardedIffStruckOrSuperseded(s, m, tx, h);
  }

  /** The mission loop supersedes nothing: when an offer is due, no vote is standing. */
  lemma OffersSupersedeNothing(s: System, l: MissionLoop.Loop, began: TimePoint, now: TimePoint, tx: uint32)
    requires VoteTracked(s) && MissionLoop.InStep(s, l, began) && MissionLoop.Due(l, began, now)
    ensures !Standing(s.station, tx)
  {
  }

  // ---------------------------------------------------------------------
  //  A lost vote stays lost, and stops the mission loop
  // ---------------------------------------------------------------------

  /** Only a new proposal could end it; nothing the controller does meanwhile leaves a trace. */
  lemma LostMove(s: System, m: Move, h: Hypot)
    requires OpenIn(s, Lost) && !m.ProposeTask?
    ensures var s' := Apply(s, m, h);
            && OpenIn(s', Lost) && s'.proposer == s.proposer
            && MissionLoop.Programme(s'.history) == MissionLoop.Programme(s.history)
  {
    var more := SwarmTheorems.HistoryGrows(s, m, h);
    if Environmental(m) {
      MissionLoop.ProgrammeUnchanged(s.history, more);
      LostStationMove(s, m, h);
    } else {
      assert s.history + [] == s.history;
    }
  }

  lemma LostStationMove(s: System, m: Move, h: Hypot)
    requires OpenIn(s, Lost) && Environmental(m)
    ensures Decision.Quiet(s.station, Apply(s, m, h).station)
  {
    if Enabled(s, m) && m.StationActs? {
      Decision.QuietAct(s.station, m.a, h);
    }
  }

  lemma {:induction false} LostRun(s: System, moves: seq<Move>, h: Hypot)
    requires OpenIn(s, Lost) && forall i | 0 <= i < |moves| :: !moves[i].ProposeTask?
    ensures var s' := Run(s, moves, h);
            && OpenIn(s', Lost) && s'.proposer == s.proposer
            && MissionLoop.Programme(s'.history) == MissionLoop.Programme(s.history)
    decreases |moves|
  {
    if moves != [] {
      LostRun(s, moves[..|moves| - 1], h);
      LostMove(Run(s, moves[..|moves| - 1], h), moves[|moves| - 1], h);
    }
  }

  /** Between the two states the vote stayed lost and the controller left no trace. */
  ghost predicate Stopped(s: System, s': System) {
    OpenIn(s', Lost) && MissionLoop.Programme(s'.history) == MissionLoop.Programme(s.history)
  }

  /** One more iteration of the loop on a lost vote: nothing is offered, ordered or withdrawn. */
  lemma LostTurn(s: System, l: MissionLoop.Loop, began: TimePoint, moves: seq<Move>, t: MissionLoop.Turn, h: Hypot)
    requires MissionLoop.InStep(Run(s, moves, h), l, began) && MissionLoop.Fair(t) && OpenIn(Run(s, moves, h), Lost)
    ensures var looked := moves + t.before + MissionLoop.OfferMoves(l, began, t.now) + t.between;
            && Stopped(Run(s, moves, h), Run(s, looked + MissionLoop.ResultMoves(), h))
            && MissionLoop.Iterate(l, began, t.now, Run(s, looked, h).station.outcome) == l
  {
    var seen := t.before + t.between;
    var looked := moves + t.before + MissionLoop.OfferMoves(l, began, t.now) + t.between;
    assert looked == moves + seen;
    LostRun(Run(s, moves, h), seen, h);
    MissionLoop.RunAppends(s, moves, seen, h);
    LostRun(Run(s, looked, h), MissionLoop.ResultMoves(), h);
    MissionLoop.RunAppends(s, looked, MissionLoop.ResultMoves(), h);
  }

  /**
   Once an open vote is lost, the mission loop stops for good: whatever happens in any further
   iterations, the vote stays lost, the loop's state does not change, and the controller never
   proposes, orders or withdraws anything again.
   */
  lemma {:induction false} LostStopsTheLoop(s0: System, began: TimePoint, turns: seq<MissionLoop.Turn>,
                                            more: seq<MissionLoop.Turn>, h: Hypot)
    requires Initial(s0) && MissionLoop.AllFair(turns + more)
    requires OpenIn(Run(s0, MissionLoop.Drive(s0, began, turns, h).0, h), Lost)
    ensures var (moves, l) := MissionLoop.Drive(s0, began, turns, h);
            var (moves', l') := MissionLoop.Drive(s0, began, turns + more, h);
            Stopped(Run(s0, moves, h), Run(s0, moves', h)) && l' == l
    decreases |more|
  {
    if more == [] {
      assert turns + more == turns;
    } else {
      var front, t := turns + more[..|more| - 1], more[|more| - 1];
      AppendedTurn(turns, more);
      LostStopsTheLoop(s0, began, turns, more[..|more| - 1], h);
      StillLost(s0, began, front, t, h);
    }
  }

  lemma AppendedTurn(turns: seq<MissionLoop.Turn>, more: seq<MissionLoop.Turn>)
    requires more != [] && MissionLoop.AllFair(turns + more)
    ensures var front, t := turns + more[..|more| - 1], more[|more| - 1];
            turns + more == front + [t] && MissionLoop.AllFair(front) && MissionLoop.Fair(t)
  {
    var front, t := turns + more[..|more| - 1], more[|more| - 1];
    assert turns + more == front + [t];
    assert t == (turns + more)[|front|];
    assert forall i | 0 <= i < |front| :: front[i] == (turns + more)[i];
  }

  lemma StillLost(s0: System, began: TimePoint, front: seq<MissionLoop.Turn>, t: MissionLoop.Turn, h: Hypot)
    requires Initial(s0) && MissionLoop.AllFair(front) && MissionLoop.Fair(t)
    requires OpenIn(Run(s0, MissionLoop.Drive(s0, began, front, h).0, h), Lost)
    ensures var (moves, l) := MissionLoop.Drive(s0, began, front, h);
            var (moves', l') := MissionLoop.Drive(s0, began, front + [t], h);
            Stopped(Run(s0, moves, h), Run(s0, moves', h)) && l' == l
  {
    var (moves, l) := MissionLoop.Drive(s0, began, front, h);
    MissionLoop.DriveSnoc(s0, began, front, t, h);
    MissionLoop.DrivenInStep(s0, began, front, h);
    LostTurn(s0, l, began, moves, t, h);
  }

  /** The phases at every moment of every driven run, without a bound on the proposals. */
  lemma DrivenVoteHasOnePhase(s0: System, began: TimePoint, turns: seq<MissionLoop.Turn>, h: Hypot, j: nat)
      returns (phase: Phase)
    requires Initial(s0) && MissionLoop.AllFair(turns)
    requires j <= |MissionLoop.Drive(s0, began, turns, h).0|
    requires Run(s0, MissionLoop.Drive(s0, began, turns, h).0[..j], h).proposer.state == Controller.VotingState
    ensures var s := Run(s0, MissionLoop.Drive(s0, began, turns, h).0[..j], h);
            OnePhase(s.station, s.proposer.activeTx, phase)
  {
    var moves := MissionLoop.Drive(s0, began, turns, h).0;
    MissionLoop.DrivenInStep(s0, began, turns, h);
    assert moves == moves[..j] + moves[j..];
    MissionLoop.HistoryOnlyGrows(s0, moves[..j], moves[j..], h);
    phase := OpenVoteHasOnePhase(s0, moves[..j], h);
  }

  // ---------------------------------------------------------------------
  //  It does happen
  // ---------------------------------------------------------------------

  /** A drone is heard, the loop proposes, and the drone is silent for the timeout before the station's step. */
  function SilentPeerTurn(hb: Heartbeat, heard: TimePoint, now: TimePoint, later: TimePoint): MissionLoop.Turn {
    MissionLoop.Turn(now, [StationActs(HeartbeatArrives(hb, heard))],
                     [StationActs(RefreshPeers(later)), StationActs(Tick(later))])
  }

  lemma RefreshMove(s: System, later: TimePoint, h: Hypot)
    ensures Apply(s, StationActs(RefreshPeers(later)), h)
         == s.(station := s.station.(peers :=
                 PeerTable.Refresh(s.station.peers, later, PeerTable.HEARTBEAT_TIMEOUT_MS)))
  {
    assert s.history + [] + [] == s.history;
  }

  lemma RefreshFindsSilence(s: System, id: uint8, later: TimePoint)
    requires VoteTracked(s) && OpenIn(s, Requested) && !s.station.inEmergency
    requires id in s.station.peers && s.station.peers[id].status == PeerTable.Online
    requires later - s.station.peers[id].info.lastHeard >= PeerTable.HEARTBEAT_TIMEOUT_MS * NS_PER_MS
    ensures var peers := PeerTable.Refresh(s.station.peers, later, PeerTable.HEARTBEAT_TIMEOUT_MS);
            var s' := s.(station := s.station.(peers := peers));
            VoteTracked(s') && OpenIn(s', Requested) && !OpenIn(s', Lost) && !NoRisingEdge(s'.station)
  {
    MillisReached(later - s.station.peers[id].info.lastHeard, PeerTable.HEARTBEAT_TIMEOUT_MS);
    var peers := PeerTable.Refresh(s.station.peers, later, PeerTable.HEARTBEAT_TIMEOUT_MS);
    assert peers[id].status == PeerTable.Offline;
  }

  /** A peer that has been silent for the timeout strikes a vote just requested. */
  lemma SilenceStrikes(s: System, id: uint8, later: TimePoint, now: TimePoint, h: Hypot)
    requires VoteTracked(s) && OpenIn(s, Requested) && !s.station.inEmergency
    requires id in s.station.peers && s.station.peers[id].status == PeerTable.Online
    requires later - s.station.peers[id].info.lastHeard >= PeerTable.HEARTBEAT_TIMEOUT_MS * NS_PER_MS
    ensures OpenIn(Run(s, [StationActs(RefreshPeers(later)), StationActs(Tick(now))], h), Lost)
  {
    var peers := PeerTable.Refresh(s.station.peers, later, PeerTable.HEARTBEAT_TIMEOUT_MS);
    MissionLoop.RunTwo(s, StationActs(RefreshPeers(later)), StationActs(Tick(now)), h);
    RefreshMove(s, later, h);
    RefreshFindsSilence(s, id, later);
    LostIffStruck(s.(station := s.station.(peers := peers)), StationActs(Tick(now)), h);
  }

  /** A proposal that the controller may number opens its vote. */
  lemma ProposalOpens(s: System, role: DroneRole, x: real, y: real, h: Hypot)
    requires VoteTracked(s) && Numbered(s)
    ensures Run(s, [Swarm.ProposeTask(role, x, y)], h) == Propose(s, role, x, y)
    ensures VoteTracked(Propose(s, role, x, y)) && OpenIn(Propose(s, role, x, y), Requested)
  {
    MissionLoop.RunProposal(s, role, x, y, h);
    ProposalTracked(s.station, s.proposer, Propose(s, role, x, y).station.request.value);
  }

  lemma InitialTracked(s0: System)
    requires Initial(s0)
    ensures VoteTracked(s0) && Numbered(s0)
  {
  }

  /** The station after it heard its first drone. */
  function HeardOne(s0: System, hb: Heartbeat, heard: TimePoint): System {
    s0.(station := s0.station.(peers := PeerTable.OnHeartbeat(s0.station.peers, hb, heard)))
  }

  lemma HeartbeatMove(s: System, hb: Heartbeat, at: TimePoint, h: Hypot)
    requires hb.droneId != s.station.config.droneId
    ensures Run(s, [StationActs(HeartbeatArrives(hb, at))], h)
         == s.(station := s.station.(peers := PeerTable.OnHeartbeat(s.station.peers, hb, at)))
  {
    MissionLoop.RunOne(s, StationActs(HeartbeatArrives(hb, at)), h);
    assert s.history + [] + [] == s.history;
  }

  lemma FirstTurn(s0: System, began: TimePoint, t: MissionLoop.Turn, h: Hypot)
    requires t.now >= began + MissionLoop.DISCOVERY_NS && t.now >= 0
    ensures var target := MissionLoop.MISSIONS[0];
            MissionLoop.Drive(s0, began, [t], h).0
            == t.before + [Swarm.ProposeTask(target.role, target.x, target.y)] + t.between + MissionLoop.ResultMoves()
  {
    MissionLoop.DriveSnoc(s0, began, [], t, h);
    assert [] + [t] == [t] && [] + t.before == t.before;
  }

  lemma LostStaysLost(s0: System, offer: seq<Move>, between: seq<Move>, rest: seq<Move>, h: Hypot)
    requires OpenIn(Run(Run(s0, offer, h), between, h), Lost)
    requires forall i | 0 <= i < |rest| :: !rest[i].ProposeTask?
    ensures OpenIn(Run(s0, offer + between + rest, h), Lost)
  {
    MissionLoop.RunAppends(s0, offer, between, h);
    LostRun(Run(s0, offer + between, h), rest, h);
    MissionLoop.RunAppends(s0, offer + between, rest, h);
  }

  /** The state with the vote requested, after a heartbeat and a proposal. */
  lemma HeardThenProposed(s0: System, hb: Heartbeat, heard: TimePoint, role: DroneRole, x: real, y: real, h: Hypot)
      returns (s: System)
    requires Initial(s0) && hb.droneId != s0.station.config.droneId && hb.nodeType == DroneNode
    ensures s == Run(s0, [StationActs(HeartbeatArrives(hb, heard))] + [Swarm.ProposeTask(role, x, y)], h)
    ensures VoteTracked(s) && OpenIn(s, Requested) && !s.station.inEmergency
    ensures hb.droneId in s.station.peers && s.station.peers[hb.droneId].status == PeerTable.Online
    ensures s.station.peers[hb.droneId].info.lastHeard == heard
    ensures s.station.request.Some? && hb.droneId in s.station.request.value.voters
  {
    HeartbeatMove(s0, hb, heard, h);
    ProposalOpens(HeardOne(s0, hb, heard), role, x, y, h);
    MissionLoop.RunAppends(s0, [StationActs(HeartbeatArrives(hb, heard))], [Swarm.ProposeTask(role, x, y)], h);
    s := Propose(HeardOne(s0, hb, heard), role, x, y);
    assert PeerTable.Keyed(s.station.peers);
    PeerTable.VotersAreOnlineDrones(s.station.peers, 0);
  }

  lemma SilentPeerRun(s0: System, hb: Heartbeat, heard: TimePoint, role: DroneRole, x: real, y: real,
                      later: TimePoint, h: Hypot)
    requires Initial(s0) && hb.droneId != s0.station.config.droneId && hb.nodeType == DroneNode
    requires later - heard >= PeerTable.HEARTBEAT_TIMEOUT_MS * NS_PER_MS
    ensures OpenIn(Run(s0, [StationActs(HeartbeatArrives(hb, heard))] + [Swarm.ProposeTask(role, x, y)]
                           + [StationActs(RefreshPeers(later)), StationActs(Tick(later))]
                           + MissionLoop.ResultMoves(), h), Lost)
  {
    var s := HeardThenProposed(s0, hb, heard, role, x, y, h);
    SilenceStrikes(s, hb.droneId, later, later, h);
    LostStaysLost(s0, [StationActs(HeartbeatArrives(hb, heard))] + [Swarm.ProposeTask(role, x, y)],
                  [StationActs(RefreshPeers(later)), StationActs(Tick(later))], MissionLoop.ResultMoves(), h);
  }

  /**
   From every initial state the very first vote of the mission loop can be lost: the drone that is
   asked falls silent, and the station notices before its step.
   */
  lemma FirstVoteCanBeLost(s0: System, began: TimePoint, hb: Heartbeat, heard: TimePoint, now: TimePoint,
                           later: TimePoint, h: Hypot)
    requires Initial(s0) && hb.droneId != s0.station.config.droneId && hb.nodeType == DroneNode
    requires now >= began + MissionLoop.DISCOVERY_NS && now >= 0
    requires heard <= now <= later && later - heard >= PeerTable.HEARTBEAT_TIMEOUT_MS * NS_PER_MS
    ensures MissionLoop.Fair(SilentPeerTurn(hb, heard, now, later))
    ensures OpenIn(Run(s0, MissionLoop.Drive(s0, began, [SilentPeerTurn(hb, heard, now, later)], h).0, h), Lost)
  {
    var t, target := SilentPeerTurn(hb, heard, now, later), MissionLoop.MISSIONS[0];
    FirstTurn(s0, began, t, h);
    SilentPeerRun(s0, hb, heard, target.role, target.x, target.y, later, h);
  }
}
