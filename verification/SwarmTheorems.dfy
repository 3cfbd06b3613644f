/** Commit safety and unique decision, over every run of the whole system. */
module SwarmTheorems {
  import opened SwarmTypes
  import opened Motion
  import opened Tasks
  import opened PeerTable
  import opened Engine
  import opened Swarm
  import opened SwarmSafety
  import Controller
  import QueueShape

  // ---------------------------------------------------------------------
  //  The invariant, move by move
  // ---------------------------------------------------------------------

  /** Events that neither propose nor decide. */
  ghost predicate Neutral(more: seq<Event>) {
    forall i | 0 <= i < |more| :: more[i].VotePublished? || more[i].Recorded?
  }

  lemma {:induction false} ProposalsUnchanged(hist: seq<Event>, more: seq<Event>)
    requires forall i | 0 <= i < |more| :: !more[i].Proposed?
    ensures Proposals(hist + more) == Proposals(hist)
    decreases |more|
  {
    if more == [] {
      assert hist + more == hist;
    } else {
      ProposalsUnchanged(hist, more[..|more| - 1]);
      assert (hist + more)[..|hist + more| - 1] == hist + more[..|more| - 1];
    }
  }

  lemma ProposerPersists(hist: seq<Event>, more: seq<Event>, c: Controller.Proposer)
    requires ProposerOk(hist, c) && Neutral(more)
    ensures ProposerOk(hist + more, c)
  {
    ProposalsUnchanged(hist, more);
    var all := hist + more;
    forall k | 0 <= k < |all| ensures k < |hist| ==> all[k] == hist[k]
                              ensures k >= |hist| ==> all[k] == more[k - |hist|] {}
    if c.state == Controller.VotingState {
      var p :| 0 <= p < |hist| && Matches(hist[p], c.pendingOrder);
      assert Matches(all[p], c.pendingOrder);
      assert !Ended(all, c.activeTx) by {
        forall k | 0 <= k < |all| ensures !Ends(all[k], c.activeTx) {
          if k < |hist| {
            assert !Ends(hist[k], c.activeTx);
          }
        }
      }
    }
  }

  lemma LoggedPersists(hist: seq<Event>, more: seq<Event>, outcome: Option<VoteOutcome>)
    requires OutcomeLogged(hist, outcome)
    ensures OutcomeLogged(hist + more, outcome)
  {
    if outcome.Some? {
      var c :| 0 <= c < |hist| && hist[c] == Recorded(outcome.value);
      assert (hist + more)[c] == hist[c];
    }
  }

  /** All of the invariant that a growing history keeps by itself. */
  lemma DronesPersist(s: System, more: seq<Event>)
    requires Inv(s)
    ensures forall id | id in s.drones :: DroneOk(s.history + more, id, s.drones[id])
    ensures StationOk(s.history + more, s.station) && OutcomeLogged(s.history + more, s.station.outcome)
  {
    forall id | id in s.drones ensures DroneOk(s.history + more, id, s.drones[id]) {
      DronePersists(s.history, more, id, s.drones[id]);
    }
    StationPersists(s.history, more, s.station);
    LoggedPersists(s.history, more, s.station.outcome);
  }

  lemma DroneMoveKeepsInv(s: System, id: uint8, a: Action, h: Hypot)
    requires Inv(s) && Enabled(s, DroneActs(id, a))
    ensures Inv(Apply(s, DroneActs(id, a), h))
  {
    var n, hist := s.drones[id], s.history;
    var more := Sent(n, a);
    if a.Tick? {
      PublishedVotesJustified(hist, id, n, a.now);
      DroneTick(hist, id, n, a.now, h);
    } else {
      QueueShape.ActAtRest(n, a, h);
    }
    assert DroneOk(hist, id, Act(n, a, h));
    LegitimateVotes(hist, more);
    DronesPersist(s, more);
    DronePersists(hist, more, id, Act(n, a, h));
    ProposerPersists(hist, more, s.proposer);
  }

  /** The station's own action: its state stays sound, it casts no vote, and a new outcome is a legitimate event. */
  lemma StationActSound(hist: seq<Event>, n: Node, a: Action, h: Hypot)
    requires Legitimate(hist) && StationOk(hist, n) && OutcomeLogged(hist, n.outcome) && Local(a)
    ensures var after := Act(n, a, h);
            && StationOk(hist, after) && Sent(n, a) == []
            && Legitimate(hist + Outcomes(n, after)) && OutcomeLogged(hist + Outcomes(n, after), after.outcome)
  {
    if a.Tick? {
      StationTick(hist, n, a.now, h);
    }
    NewOutcomeLogged(hist, n, Act(n, a, h));
  }

  lemma NewOutcomeLogged(hist: seq<Event>, n: Node, after: Node)
    requires Legitimate(hist) && OutcomeLogged(hist, n.outcome) && OutcomeOk(hist, after.outcome)
    ensures Legitimate(hist + Outcomes(n, after)) && OutcomeLogged(hist + Outcomes(n, after), after.outcome)
  {
    var more := Outcomes(n, after);
    if more == [] {
      assert hist + more == hist;
    } else {
      LegitimateExtends(hist, more[0]);
      assert (hist + more)[|hist|] == more[0];
    }
  }

  /** Events that neither propose nor decide disturb nobody. */
  lemma StationChanged(s: System, after: Node, more: seq<Event>)
    requires Inv(s) && StationOk(s.history, after) && Neutral(more)
    requires Legitimate(s.history + more) && OutcomeLogged(s.history + more, after.outcome)
    ensures Inv(s.(station := after, history := s.history + more))
  {
    DronesPersist(s, more);
    StationPersists(s.history, more, after);
    ProposerPersists(s.history, more, s.proposer);
  }

  lemma StationMoveKeepsInv(s: System, a: Action, h: Hypot)
    requires Inv(s) && Enabled(s, StationActs(a))
    ensures Inv(Apply(s, StationActs(a), h))
  {
    var hist, after := s.history, Act(s.station, a, h);
    StationActSound(hist, s.station, a, h);
    var more := Outcomes(s.station, after);
    assert hist + [] + more == hist + more;
    StationChanged(s, after, more);
  }

  lemma DeliverToDroneKeepsInv(s: System, id: uint8, event: nat, h: Hypot)
    requires Inv(s) && Enabled(s, DeliverToDrone(id, event))
    ensures Inv(Apply(s, DeliverToDrone(id, event), h))
  {
    var n, c := s.drones[id], Deliverable(s.history[event]).value;
    QueueShape.ActAtRest(n, AddCommand(c), h);
    assert FromNetwork(s.history, n.commands + [c]);
    assert DroneOk(s.history, id, Act(n, AddCommand(c), h));
  }

  lemma DeliverToStationKeepsInv(s: System, event: nat, h: Hypot)
    requires Inv(s) && Enabled(s, DeliverToStation(event))
    ensures Inv(Apply(s, DeliverToStation(event), h))
  {
    var n, c := s.station, Deliverable(s.history[event]).value;
    assert FromNetwork(s.history, n.commands + [c]);
  }

  /** A new proposal gets a number above all before it. */
  lemma ProposalIsNew(hist: seq<Event>, c: Controller.Proposer, e: Event, role: DroneRole, x: real, y: real)
    requires ProposerOk(hist, c) && Proposals(hist) + 1 < TWO_TO_THE_32
    requires e.Proposed? && e.message.tx == c.nextTx && e.message.vote == Pending
    requires e.role == role && e.x == x && e.y == y
    ensures Justified(hist, e)
    ensures ProposerOk(hist + [e], Controller.Propose(c, role, x, y))
  {
    var all := hist + [e];
    assert all[..|hist|] == hist && all[|hist|] == e;
    assert c.nextTx == c.activeTx + 1;
    forall k | 0 <= k < |all| ensures !Ends(all[k], c.nextTx) {}
    assert Matches(all[|hist|], Controller.Propose(c, role, x, y).pendingOrder);
  }

  lemma ProposeKeepsInv(s: System, role: DroneRole, x: real, y: real)
    requires Inv(s) && Proposals(s.history) + 1 < TWO_TO_THE_32
    ensures Inv(Propose(s, role, x, y))
  {
    var hist := s.history;
    var s' := Propose(s, role, x, y);
    var e := s'.history[|hist|];
    assert s'.history == hist + [e];
    ProposalIsNew(hist, s.proposer, e, role, x, y);
    LegitimateExtends(hist, e);
    DronesPersist(s, [e]);
    assert IsProposal(hist + [e], |hist|, s.proposer.nextTx) && (hist + [e])[|hist|] == e;
  }

  /** The event by which the controller decides its active transaction is legitimate. */
  lemma DecisionIsLegitimate(hist: seq<Event>, c: Controller.Proposer, outcome: Option<VoteOutcome>, e: Event)
    requires ProposerOk(hist, c) && OutcomeLogged(hist, outcome) && c.state == Controller.VotingState
    requires outcome.Some? && outcome.value.tx == c.activeTx
    requires (outcome.value.result == Committed && e == Ordered(c.pendingOrder))
          || (outcome.value.result == Aborted && e == Withdrawn(c.activeTx))
    ensures Justified(hist, e)
  {
    var i :| 0 <= i < |hist| && hist[i] == Recorded(outcome.value);
    assert IsOutcome(hist, i, c.activeTx, outcome.value.result);
    forall k | 0 <= k < |hist| && hist[k].Ordered? ensures hist[k].order.taskId < c.activeTx {
      assert !Ends(hist[k], c.activeTx);
    }
  }

  /** Once it has decided, the controller is no longer voting. */
  lemma DecidedProposerOk(hist: seq<Event>, c: Controller.Proposer, state: Controller.State, e: Event)
    requires ProposerOk(hist, c) && state != Controller.VotingState
    requires (e.Ordered? && e.order.taskId == c.activeTx) || (e.Withdrawn? && e.tx == c.activeTx)
    ensures ProposerOk(hist + [e], c.(state := state))
  {
    ProposalsUnchanged(hist, [e]);
    var all := hist + [e];
    assert all[|hist|] == e;
    assert forall k | 0 <= k < |hist| :: all[k] == hist[k];
  }

  /** The three things a controller step can do. */
  lemma ControllerCases(c: Controller.Proposer, outcome: Option<VoteOutcome>)
    ensures var (after, published) := Controller.StepController(c, outcome);
            var more := Decided(c, after, published);
            if || c.state != Controller.VotingState || outcome.None?
               || outcome.value.tx != c.activeTx || outcome.value.result == Undecided
            then after == c && more == []
            else && after == c.(state := after.state) && after.state != Controller.VotingState
                 && more == [if outcome.value.result == Committed then Ordered(c.pendingOrder)
                             else Withdrawn(c.activeTx)]
  {
  }

  lemma DecideKeepsInv(s: System)
    requires Inv(s)
    ensures Inv(Decide(s))
  {
    var hist, c := s.history, s.proposer;
    var (after, published) := Controller.StepController(c, s.station.outcome);
    var more := Decided(c, after, published);
    ControllerCases(c, s.station.outcome);
    if more == [] {
      assert hist + more == hist;
    } else {
      DecisionIsLegitimate(hist, c, s.station.outcome, more[0]);
      LegitimateExtends(hist, more[0]);
      DecidedProposerOk(hist, c, after.state, more[0]);
    }
    DronesPersist(s, more);
  }

  lemma RestartKeepsInv(s: System, id: uint8, battery: uint8, h: Hypot)
    requires Inv(s) && Enabled(s, DroneRestarts(id, battery))
    ensures Inv(Apply(s, DroneRestarts(id, battery), h))
  {
    assert DroneOk(s.history, id, Boot(s.drones[id].config, battery));
  }

  lemma MoveKeepsInv(s: System, m: Move, h: Hypot)
    requires Inv(s) && Proposals(Apply(s, m, h).history) < TWO_TO_THE_32
    ensures Inv(Apply(s, m, h))
  {
    if Enabled(s, m) {
      match m
      case DroneActs(id, a) => DroneMoveKeepsInv(s, id, a, h);
      case StationActs(a) => StationMoveKeepsInv(s, a, h);
      case DeliverToDrone(id, event) => DeliverToDroneKeepsInv(s, id, event, h);
      case DeliverToStation(event) => DeliverToStationKeepsInv(s, event, h);
      case ProposeTask(role, x, y) =>
        assert Propose(s, role, x, y).history[..|s.history|] == s.history;
        ProposeKeepsInv(s, role, x, y);
      case ControllerSteps => DecideKeepsInv(s);
      case ResultConsumed =>
      case DroneRestarts(id, battery) => RestartKeepsInv(s, id, battery, h);
    }
  }

  lemma {:induction false} ProposalsGrow(hist: seq<Event>, more: seq<Event>)
    ensures Proposals(hist) <= Proposals(hist + more)
    decreases |more|
  {
    if more == [] {
      assert hist + more == hist;
    } else {
      ProposalsGrow(hist, more[..|more| - 1]);
      assert (hist + more)[..|hist + more| - 1] == hist + more[..|more| - 1];
    }
  }

  lemma HistoryGrows(s: System, m: Move, h: Hypot) returns (more: seq<Event>)
    ensures Apply(s, m, h).history == s.history + more
    ensures Environmental(m) ==> Neutral(more) && Apply(s, m, h).proposer == s.proposer
  {
    more := [];
    if Enabled(s, m) {
      match m
      case DroneActs(id, a) => more := Sent(s.drones[id], a);
      case StationActs(a) => more := Sent(s.station, a) + Outcomes(s.station, Act(s.station, a, h));
      case ProposeTask(role, x, y) => more := Propose(s, role, x, y).history[|s.history|..];
      case ControllerSteps => more := Decide(s).history[|s.history|..];
      case _ =>
    }
    if more == [] {
      assert s.history + more == s.history;
    }
  }

  lemma InitialInv(s: System)
    requires Initial(s)
    ensures Inv(s)
  {
    forall id | id in s.drones ensures DroneOk(s.history, id, s.drones[id]) {
      assert s.drones[id] == Boot(s.drones[id].config, s.drones[id].flight.battery);
    }
  }

  /** The invariant holds after every run with fewer than 2^32 proposals. */
  lemma {:induction false} ReachableInv(s0: System, moves: seq<Move>, h: Hypot)
    requires Initial(s0) && Proposals(Run(s0, moves, h).history) < TWO_TO_THE_32
    ensures Inv(Run(s0, moves, h))
    decreases |moves|
  {
    if moves == [] {
      InitialInv(s0);
    } else {
      var before, m := Run(s0, moves[..|moves| - 1], h), moves[|moves| - 1];
      var more := HistoryGrows(before, m, h);
      ProposalsGrow(before.history, more);
      ReachableInv(s0, moves[..|moves| - 1], h);
      MoveKeepsInv(before, m, h);
    }
  }

  // ---------------------------------------------------------------------
  //  What a legitimate history proves
  // ---------------------------------------------------------------------

  lemma ProposalNumbersIncrease(hist: seq<Event>, p: int, q: int)
    requires Legitimate(hist) && 0 <= p < |hist| && 0 <= q < |hist|
    ensures p < q && hist[p].Proposed? && hist[q].Proposed? ==> hist[p].message.tx < hist[q].message.tx
  {
    assert Justified(hist[..q], hist[q]);
    if p < q {
      assert hist[..q][p] == hist[p];
    }
  }

  lemma ProposalIsUnique(hist: seq<Event>, p: int, q: int, tx: uint32)
    requires Legitimate(hist) && IsProposal(hist, p, tx) && IsProposal(hist, q, tx)
    ensures p == q
  {
    ProposalNumbersIncrease(hist, p, q);
    ProposalNumbersIncrease(hist, q, p);
  }

  /** A vote comes after the proposal it answers, and an ACK was cast with enough battery. */
  lemma VoteFollowsProposal(hist: seq<Event>, p: int, j: int, tx: uint32, v: uint8, vote: Vote)
    requires Legitimate(hist) && IsProposal(hist, p, tx) && IsVote(hist, j, tx, v, vote)
    ensures p < j && (vote == Ack <==> hist[j].battery >= CRITICAL_BATTERY)
  {
    assert Justified(hist[..j], hist[j]);
    var q :| IsProposal(hist[..j], q, tx);
    assert IsProposal(hist, q, tx);
    ProposalIsUnique(hist, p, q, tx);
  }

  ghost predicate AckBetween(hist: seq<Event>, p: int, c: int, tx: uint32, v: uint8) {
    exists j :: p < j < c && IsVote(hist, j, tx, v, Ack) && hist[j].battery >= CRITICAL_BATTERY
  }

  /** Proposal p was committed at c: every voter of its snapshot had answered ACK in between, fit to fly. */
  ghost predicate CommittedAt(hist: seq<Event>, p: int, c: int, tx: uint32) {
    && 0 <= p < c && IsProposal(hist, p, tx) && IsOutcome(hist, c, tx, Committed)
    && (forall v | v in hist[p].voters :: AckBetween(hist, p, c, tx, v))
  }

  lemma CommitIsUnanimous(hist: seq<Event>, p: int, c: int, tx: uint32)
    requires Legitimate(hist) && IsProposal(hist, p, tx) && IsOutcome(hist, c, tx, Committed)
    ensures CommittedAt(hist, p, c, tx)
  {
    assert Justified(hist[..c], hist[c]);
    var q :| Backed(hist[..c], hist[c].outcome, q);
    assert IsProposal(hist, q, tx);
    ProposalIsUnique(hist, p, q, tx);
    assert hist[..c][p] == hist[p];
    forall v | v in hist[p].voters ensures AckBetween(hist, p, c, tx, v) {
      assert HasVoted(hist[..c], tx, v, Ack);
      var j :| IsVote(hist[..c], j, tx, v, Ack);
      assert IsVote(hist, j, tx, v, Ack);
      VoteFollowsProposal(hist, p, j, tx, v, Ack);
    }
  }

  /** Order k carries out proposal p, committed in between. */
  ghost predicate Authorised(hist: seq<Event>, k: int, p: int, c: int) {
    && 0 <= p < c < k < |hist| && hist[k].Ordered?
    && CommittedAt(hist, p, c, hist[k].order.taskId)
    && Matches(hist[p], hist[k].order)
  }

  lemma OrdersAreAuthorised(hist: seq<Event>, k: int)
    requires Legitimate(hist) && 0 <= k < |hist| && hist[k].Ordered?
    ensures exists p, c :: Authorised(hist, k, p, c)
  {
    var order := hist[k].order;
    assert Justified(hist[..k], hist[k]);
    var p :| 0 <= p < k && Matches(hist[..k][p], order);
    var c :| IsOutcome(hist[..k], c, order.taskId, Committed);
    assert IsProposal(hist, p, order.taskId) && IsOutcome(hist, c, order.taskId, Committed);
    CommitIsUnanimous(hist, p, c, order.taskId);
    assert Authorised(hist, k, p, c);
  }

  /** An ACK that a voter of proposal p gave in time for the outcome at c. */
  ghost predicate VoterAcked(hist: seq<Event>, p: int, c: int, tx: uint32) {
    0 <= p < |hist| && hist[p].Proposed? && exists v :: v in hist[p].voters && AckBetween(hist, p, c, tx, v)
  }

  /** Every order rests on an ACK of one of its voters if and only if its voter snapshot was nonempty. */
  lemma OrderRestsOnAckIff(hist: seq<Event>, k: int, p: int, c: int)
    requires Authorised(hist, k, p, c)
    ensures VoterAcked(hist, p, c, hist[k].order.taskId) <==> hist[p].voters != []
  {
    if hist[p].voters != [] {
      assert hist[p].voters[0] in hist[p].voters;
    }
  }

  /** The mission was ordered, and the order was authorised by a unanimous vote. */
  ghost predicate Sanctioned(hist: seq<Event>, t: Task, role: DroneRole) {
    exists k, p, c :: Authorised(hist, k, p, c) && hist[k].order.role == role && Fulfils(t, hist[k].order)
  }

  /** Every queued mission of every drone is sanctioned. */
  ghost predicate CommitSafe(s: System) {
    forall id, i: nat | id in s.drones && i < |s.drones[id].queue| && IsMission(s.drones[id].queue[i].task) ::
      Sanctioned(s.history, s.drones[id].queue[i].task, s.drones[id].config.role)
  }

  lemma SoundIsCommitSafe(s: System)
    requires Inv(s)
    ensures CommitSafe(s)
  {
    var hist := s.history;
    forall id, i: nat | id in s.drones && i < |s.drones[id].queue| && IsMission(s.drones[id].queue[i].task)
      ensures Sanctioned(hist, s.drones[id].queue[i].task, s.drones[id].config.role)
    {
      var n := s.drones[id];
      var t := n.queue[i].task;
      assert DroneOk(hist, id, n) && Licensed(hist, t, n.config.role);
      var k :| 0 <= k < |hist| && hist[k].Ordered? && hist[k].order.role == n.config.role && Fulfils(t, hist[k].order);
      OrdersAreAuthorised(hist, k);
      var p, c :| Authorised(hist, k, p, c);
    }
  }

  /**
   Commit safety.  In every state the system can reach, every mission in any drone's queue is what
   an order for that drone's role asks for, with the role and coordinates that were proposed under
   its transaction; that transaction was committed before the order was published; and every drone
   in the proposal's voter snapshot had answered it with an ACK, after the proposal and before the
   commit, at a moment when its battery was at least 15.
   */
  lemma CommitSafety(s0: System, moves: seq<Move>, h: Hypot)
    requires Initial(s0) && Proposals(Run(s0, moves, h).history) < TWO_TO_THE_32
    ensures CommitSafe(Run(s0, moves, h))
  {
    ReachableInv(s0, moves, h);
    SoundIsCommitSafe(Run(s0, moves, h));
  }

  /** A transaction is proposed once and decided at most once; published numbers strictly increase. */
  ghost predicate DecidedOnce(hist: seq<Event>) {
    && (forall p, q, tx: uint32 :: IsProposal(hist, p, tx) && IsProposal(hist, q, tx) ==> p == q)
    && (forall k, l, tx: uint32 | 0 <= k < l < |hist| && Ends(hist[k], tx) :: !Ends(hist[l], tx))
    && (forall k, l | 0 <= k < l < |hist| && hist[k].Ordered? && hist[l].Ordered? ::
          hist[k].order.taskId < hist[l].order.taskId)
  }

  /** Every decision follows the recorded outcome of its own transaction. */
  ghost predicate WellFounded(hist: seq<Event>) {
    && (forall k | 0 <= k < |hist| && hist[k].Ordered? :: exists p, c :: Authorised(hist, k, p, c))
    && (forall k | 0 <= k < |hist| && hist[k].Withdrawn? ::
          exists c :: c < k && IsOutcome(hist, c, hist[k].tx, Aborted))
  }

  lemma LegitimateDecisions(hist: seq<Event>)
    requires Legitimate(hist)
    ensures DecidedOnce(hist) && WellFounded(hist)
  {
    forall p, q, tx: uint32 | IsProposal(hist, p, tx) && IsProposal(hist, q, tx) ensures p == q {
      ProposalIsUnique(hist, p, q, tx);
    }
    forall k, l, tx: uint32 | 0 <= k < l < |hist| && Ends(hist[k], tx) ensures !Ends(hist[l], tx) {
      assert Justified(hist[..l], hist[l]) && hist[..l][k] == hist[k];
      assert Ended(hist[..l], tx);
    }
    forall k, l | 0 <= k < l < |hist| && hist[k].Ordered? && hist[l].Ordered?
      ensures hist[k].order.taskId < hist[l].order.taskId
    {
      assert Justified(hist[..l], hist[l]) && hist[..l][k] == hist[k];
    }
    forall k | 0 <= k < |hist| && hist[k].Ordered? ensures exists p, c :: Authorised(hist, k, p, c) {
      OrdersAreAuthorised(hist, k);
    }
    forall k | 0 <= k < |hist| && hist[k].Withdrawn?
      ensures exists c :: c < k && IsOutcome(hist, c, hist[k].tx, Aborted)
    {
      assert Justified(hist[..k], hist[k]);
      var c :| IsOutcome(hist[..k], c, hist[k].tx, Aborted);
      assert IsOutcome(hist, c, hist[k].tx, Aborted);
    }
  }

  /**
   Unique decision.  In every reachable history a transaction is proposed once, is published or
   cancelled at most once in all, and never both; the decision follows the station's own recorded
   outcome of that very transaction, a published order carries the role and coordinates proposed
   under its number, and published numbers strictly increase.
   */
  lemma UniqueDecision(s0: System, moves: seq<Move>, h: Hypot)
    requires Initial(s0) && Proposals(Run(s0, moves, h).history) < TWO_TO_THE_32
    ensures DecidedOnce(Run(s0, moves, h).history) && WellFounded(Run(s0, moves, h).history)
  {
    ReachableInv(s0, moves, h);
    LegitimateDecisions(Run(s0, moves, h).history);
  }

  /** Every order of every reachable history: authorised, and resting on an ACK exactly if somebody was asked. */
  lemma ReachableOrdersRestOnAcks(s0: System, moves: seq<Move>, h: Hypot, k: nat) returns (p: int, c: int)
    requires Initial(s0) && Proposals(Run(s0, moves, h).history) < TWO_TO_THE_32
    requires k < |Run(s0, moves, h).history| && Run(s0, moves, h).history[k].Ordered?
    ensures var hist := Run(s0, moves, h).history;
            && Authorised(hist, k, p, c)
            && (VoterAcked(hist, p, c, hist[k].order.taskId) <==> hist[p].voters != [])
  {
    var hist := Run(s0, moves, h).history;
    ReachableInv(s0, moves, h);
    OrdersAreAuthorised(hist, k);
    p, c :| Authorised(hist, k, p, c);
    OrderRestsOnAckIff(hist, k, p, c);
  }
}
