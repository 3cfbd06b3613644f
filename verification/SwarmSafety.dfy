/** The invariant of the whole system holds in every reachable state, and what follows from it. */
module SwarmSafety {
  import opened SwarmTypes
  import opened Motion
  import opened Tasks
  import opened PeerTable
  import opened Engine
  import opened Swarm
  import Ballots
  import CommandDrain
  import QueueShape

  // ---------------------------------------------------------------------
  //  What the history says, it says forever
  // ---------------------------------------------------------------------

  lemma VotedPersists(hist: seq<Event>, more: seq<Event>, tx: uint32, v: uint8, vote: Vote)
    requires HasVoted(hist, tx, v, vote)
    ensures HasVoted(hist + more, tx, v, vote)
  {
    var j :| IsVote(hist, j, tx, v, vote);
    assert IsVote(hist + more, j, tx, v, vote);
  }

  lemma ProposedToPersists(hist: seq<Event>, more: seq<Event>, tx: uint32, voters: set<uint8>)
    requires ProposedTo(hist, tx, voters)
    ensures ProposedTo(hist + more, tx, voters)
  {
    var p :| IsProposal(hist, p, tx) && voters == set v | v in hist[p].voters;
    assert IsProposal(hist + more, p, tx) && (hist + more)[p] == hist[p];
  }

  lemma BackedPersists(hist: seq<Event>, more: seq<Event>, o: VoteOutcome, p: int)
    requires Backed(hist, o, p)
    ensures Backed(hist + more, o, p)
  {
    assert IsProposal(hist + more, p, o.tx) && (hist + more)[p] == hist[p];
    if o.result == Committed {
      forall v | v in hist[p].voters ensures HasVoted(hist + more, o.tx, v, Ack) {
        VotedPersists(hist, more, o.tx, v, Ack);
      }
    }
    if o.result == Aborted && !o.byTimeout {
      var v :| v in hist[p].voters && HasVoted(hist, o.tx, v, Nack);
      VotedPersists(hist, more, o.tx, v, Nack);
    }
  }

  lemma FromNetworkPersists(hist: seq<Event>, more: seq<Event>, commands: seq<Command>)
    requires FromNetwork(hist, commands)
    ensures FromNetwork(hist + more, commands)
  {
    forall c | c in commands ensures exists i :: 0 <= i < |hist + more| && Deliverable((hist + more)[i]) == Some(c) {
      var i :| 0 <= i < |hist| && Deliverable(hist[i]) == Some(c);
      assert (hist + more)[i] == hist[i];
    }
  }

  lemma LicensedPersists(hist: seq<Event>, more: seq<Event>, t: Task, role: DroneRole)
    requires Licensed(hist, t, role)
    ensures Licensed(hist + more, t, role)
  {
    if IsMission(t) {
      var k :| 0 <= k < |hist| && hist[k].Ordered? && hist[k].order.role == role && Fulfils(t, hist[k].order);
      assert (hist + more)[k] == hist[k];
    }
  }

  lemma DronePersists(hist: seq<Event>, more: seq<Event>, id: uint8, n: Node)
    requires DroneOk(hist, id, n)
    ensures DroneOk(hist + more, id, n)
  {
    FromNetworkPersists(hist, more, n.commands);
    forall i | 0 <= i < |n.queue| ensures Licensed(hist + more, n.queue[i].task, n.config.role) {
      LicensedPersists(hist, more, n.queue[i].task, n.config.role);
    }
  }

  lemma BallotPersists(hist: seq<Event>, more: seq<Event>, b: Ballots.Ballot)
    requires BallotOk(hist, b)
    ensures BallotOk(hist + more, b)
  {
    ProposedToPersists(hist, more, b.tx, b.votes.Keys);
    forall v | v in b.votes && b.votes[v] != Pending ensures HasVoted(hist + more, b.tx, v, b.votes[v]) {
      VotedPersists(hist, more, b.tx, v, b.votes[v]);
    }
  }

  lemma StationPersists(hist: seq<Event>, more: seq<Event>, n: Node)
    requires StationOk(hist, n)
    ensures StationOk(hist + more, n)
  {
    FromNetworkPersists(hist, more, n.commands);
    if n.request.Some? {
      ProposedToPersists(hist, more, n.request.value.tx, set v | v in n.request.value.voters);
    }
    forall i | 0 <= i < |n.queue| && n.queue[i].task.Voting? ensures BallotOk(hist + more, n.queue[i].task.ballot) {
      BallotPersists(hist, more, n.queue[i].task.ballot);
    }
    if n.outcome.Some? {
      var p :| Backed(hist, n.outcome.value, p);
      BackedPersists(hist, more, n.outcome.value, p);
    }
  }

  // ---------------------------------------------------------------------
  //  A drone's step
  // ---------------------------------------------------------------------

  lemma LicensedPrepare(hist: seq<Event>, n: Node, now: TimePoint, h: Hypot)
    requires LicensedQueue(hist, n)
    ensures LicensedQueue(hist, Prepare(n, now))
  {
  }

  lemma LicensedSettle(hist: seq<Event>, n: Node, now: TimePoint, h: Hypot)
    requires LicensedQueue(hist, n)
    ensures LicensedQueue(hist, Settle(n, now))
  {
    assert LicensedQueue(hist, ApplyRequest(n));
    assert LicensedQueue(hist, HandleEmergency(ApplyRequest(n)));
    LicensedPrepare(hist, HandleEmergency(ApplyRequest(n)), now, h);
  }

  lemma LicensedOrder(hist: seq<Event>, n: Node, order: TaskOrder, i: int)
    requires LicensedQueue(hist, n) && 0 <= i < |hist| && hist[i] == Ordered(order)
    ensures LicensedQueue(hist, ProcessOrder(n, order))
  {
    AllocationFulfilsOrder(order, n.config);
  }

  lemma FromNetworkRest(hist: seq<Event>, commands: seq<Command>)
    requires FromNetwork(hist, commands) && commands != []
    ensures FromNetwork(hist, commands[1..])
  {
    assert forall c | c in commands[1..] :: c in commands;
  }

  lemma {:induction false} LicensedDrain(hist: seq<Event>, n: Node)
    requires LicensedQueue(hist, n) && FromNetwork(hist, n.commands)
    ensures LicensedQueue(hist, Drain(n).0)
    decreases |n.commands|
  {
    if n.commands != [] {
      var c, rest := n.commands[0], n.(commands := n.commands[1..]);
      assert c in n.commands;
      var i :| 0 <= i < |hist| && Deliverable(hist[i]) == Some(c);
      FromNetworkRest(hist, n.commands);
      if c.OrderCommand? {
        LicensedOrder(hist, rest, c.order, i);
      }
      assert LicensedQueue(hist, ProcessCommand(rest, c).0);
      LicensedDrain(hist, ProcessCommand(rest, c).0);
    }
  }

  lemma LicensedConclude(hist: seq<Event>, n: Node, now: TimePoint, h: Hypot)
    requires LicensedQueue(hist, n) && n.queue != []
    ensures LicensedQueue(hist, Conclude(n, now))
  {
  }

  lemma LicensedRunFront(hist: seq<Event>, n: Node, now: TimePoint, h: Hypot)
    requires LicensedQueue(hist, n) && n.queue != []
    ensures LicensedQueue(hist, RunFront(n, now, h))
  {
    var (t, f) := RunTask(n.queue[0].task, now, n.flight, h);
    LicensedConclude(hist, Advanced(n, t, f), now, h);
  }

  lemma LicensedStep(hist: seq<Event>, n: Node, now: TimePoint, h: Hypot)
    requires LicensedQueue(hist, n) && FromNetwork(hist, n.commands)
    ensures LicensedQueue(hist, Step(n, now, h))
  {
    LicensedSettle(hist, n, now, h);
    SettleTakesRequest(n, now);
    LicensedDrain(hist, Settle(n, now));
    LicensedPrepare(hist, Drain(Settle(n, now)).0, now, h);
    LicensedRunFront(hist, Ready(n, now), now, h);
  }

  /** An answer to a proposal of the network is a legitimate vote event. */
  lemma AnswerJustified(hist: seq<Event>, n: Node, m: ConsensusMessage)
    requires Legitimate(hist) && FromNetwork(hist, n.commands) && m in CommandDrain.Answers(n, n.commands)
    ensures Justified(hist, VotePublished(m, n.flight.battery)) && m.sender == n.config.droneId
  {
    CommandDrain.AnswersAreJustified(n, n.commands, m);
    var c :| c in n.commands && CommandDrain.ForeignProposal(c, n.config) && c.message.tx == m.tx;
    ProposalBehind(hist, n.commands, c);
  }

  lemma AtRestNoCollector(n: Node)
    requires QueueShape.AtRest(n) && n.config.nodeType == DroneNode
    ensures CommandDrain.NoCollector(n)
  {
  }

  lemma PublishedAreAnswers(n: Node, now: TimePoint)
    requires QueueShape.AtRest(n) && n.config.nodeType == DroneNode
    ensures Published(n, now) == CommandDrain.Answers(n, n.commands)
  {
    var settled := Settle(n, now);
    QueueShape.SettleAtRest(n, now);
    SettleFrame(n, now);
    SettleTakesRequest(n, now);
    AtRestNoCollector(settled);
    CommandDrain.DrainMeetsSpec(settled);
    CommandDrain.SameAnswers(settled, n, n.commands);
  }

  /** Each vote a drone publishes answers a proposal of the history and tells the battery's truth. */
  lemma PublishedVotesJustified(hist: seq<Event>, id: uint8, n: Node, now: TimePoint)
    requires Legitimate(hist) && DroneOk(hist, id, n)
    ensures var votes := VoteEvents(n.flight.battery, Published(n, now));
            forall i | 0 <= i < |votes| ::
              votes[i].VotePublished? && Justified(hist, votes[i]) && votes[i].message.sender == id
  {
    PublishedAreAnswers(n, now);
    var messages := CommandDrain.Answers(n, n.commands);
    forall i | 0 <= i < |messages|
      ensures Justified(hist, VotePublished(messages[i], n.flight.battery)) && messages[i].sender == id
    {
      AnswerJustified(hist, n, messages[i]);
    }
  }

  /** A PENDING message on the network can only be a proposal. */
  lemma ProposalBehind(hist: seq<Event>, commands: seq<Command>, c: Command)
    requires Legitimate(hist) && FromNetwork(hist, commands) && c in commands
    requires c.ConsensusCommand? && c.message.vote == Pending
    ensures exists p :: IsProposal(hist, p, c.message.tx)
  {
    var i :| 0 <= i < |hist| && Deliverable(hist[i]) == Some(c);
    assert Justified(hist[..i], hist[i]);
    assert IsProposal(hist, i, c.message.tx);
  }

  lemma DroneTick(hist: seq<Event>, id: uint8, n: Node, now: TimePoint, h: Hypot)
    requires Legitimate(hist) && DroneOk(hist, id, n)
    ensures DroneOk(hist, id, Step(n, now, h))
  {
    QueueShape.StepAtRest(n, now, h);
    LicensedStep(hist, n, now, h);
    StepTakesAll(n, now, h);
  }

  // ---------------------------------------------------------------------
  //  The station's step
  // ---------------------------------------------------------------------

  lemma BallotVoteOk(hist: seq<Event>, b: Ballots.Ballot, c: Ballots.Cast)
    requires BallotOk(hist, b) && (c.vote != Pending ==> HasVoted(hist, b.tx, c.sender, c.vote))
    ensures BallotOk(hist, Ballots.OnVote(b, c))
  {
    var b' := Ballots.OnVote(b, c);
    if b.result == Undecided && c.sender in b.votes {
      assert b'.votes.Keys == b.votes.Keys;
      assert b'.votes[c.sender] == c.vote;
    }
  }

  /** A vote on the network was published by its sender. */
  lemma VoteBehind(hist: seq<Event>, commands: seq<Command>, c: Command)
    requires Legitimate(hist) && FromNetwork(hist, commands) && c in commands
    requires c.ConsensusCommand? && c.message.vote != Pending
    ensures HasVoted(hist, c.message.tx, c.message.sender, c.message.vote)
  {
    var i :| 0 <= i < |hist| && Deliverable(hist[i]) == Some(c);
    assert Justified(hist[..i], hist[i]);
    assert IsVote(hist, i, c.message.tx, c.message.sender, c.message.vote);
  }

  lemma StationStart(hist: seq<Event>, n: Node, now: TimePoint, h: Hypot)
    requires StationOk(hist, n)
    ensures StationOk(hist, StartActive(n, now))
  {
  }

  lemma StationPrepare(hist: seq<Event>, n: Node, now: TimePoint, h: Hypot)
    requires StationOk(hist, n)
    ensures StationOk(hist, Prepare(n, now))
  {
    StationStart(hist, Fill(n), now, h);
  }

  lemma StationEmergency(hist: seq<Event>, n: Node)
    requires StationOk(hist, n)
    ensures StationOk(hist, HandleEmergency(n))
  {
  }

  lemma StationCommand(hist: seq<Event>, n: Node, all: seq<Command>, c: Command)
    requires Legitimate(hist) && StationOk(hist, n) && FromNetwork(hist, all) && c in all
    ensures StationOk(hist, ProcessCommand(n, c).0) && ProcessCommand(n, c).1 == []
    ensures ProcessCommand(n, c).0.outcome == n.outcome
  {
    match c
    case OrderCommand(order) =>
    case ConsensusCommand(m) =>
      if m.sender != n.config.droneId && m.vote != Pending && ActiveVoting(n, m) {
        VoteBehind(hist, all, c);
        BallotVoteOk(hist, n.queue[0].task.ballot, Ballots.Cast(m.sender, m.vote));
      }
  }

  lemma {:induction false} StationDrain(hist: seq<Event>, n: Node)
    requires Legitimate(hist) && StationOk(hist, n)
    ensures StationOk(hist, Drain(n).0) && Drain(n).1 == []
    ensures Drain(n).0.outcome == n.outcome
    decreases |n.commands|
  {
    if n.commands != [] {
      var c, rest := n.commands[0], n.(commands := n.commands[1..]);
      FromNetworkRest(hist, n.commands);
      StationCommand(hist, rest, n.commands, c);
      StationDrain(hist, ProcessCommand(rest, c).0);
    }
  }

  lemma BallotOutcomeBacked(hist: seq<Event>, b: Ballots.Ballot)
    requires BallotOk(hist, b) && b.result != Undecided
    ensures exists p :: Backed(hist, VoteOutcome(b.tx, b.result, b.byTimeout), p)
  {
    var p :| IsProposal(hist, p, b.tx) && b.votes.Keys == set v | v in hist[p].voters;
    var o := VoteOutcome(b.tx, b.result, b.byTimeout);
    if b.result == Committed {
      forall v | v in hist[p].voters ensures HasVoted(hist, o.tx, v, Ack) {
        assert v in b.votes && b.votes[v] == Ack;
      }
    }
    if b.result == Aborted && !b.byTimeout {
      var v :| v in b.votes && b.votes[v] == Nack;
      assert v in hist[p].voters && HasVoted(hist, o.tx, v, Nack);
    }
    assert Backed(hist, o, p);
  }

  lemma StationConclude(hist: seq<Event>, n: Node, now: TimePoint, h: Hypot)
    requires StationOk(hist, n) && n.queue != []
    ensures StationOk(hist, Conclude(n, now))
  {
    var t := n.queue[0].task;
    if IsFinished(t) {
      if t.Voting? {
        BallotOutcomeBacked(hist, t.ballot);
      }
      assert StationOk(hist, ExitFront(RecordOutcome(n, t)));
      StationStart(hist, ExitFront(RecordOutcome(n, t)), now, h);
    }
  }

  lemma StationRunFront(hist: seq<Event>, n: Node, now: TimePoint, h: Hypot)
    requires StationOk(hist, n) && n.queue != []
    ensures StationOk(hist, RunFront(n, now, h))
  {
    var (t, f) := RunTask(n.queue[0].task, now, n.flight, h);
    StationConclude(hist, Advanced(n, t, f), now, h);
  }

  lemma StationTick(hist: seq<Event>, n: Node, now: TimePoint, h: Hypot)
    requires Legitimate(hist) && StationOk(hist, n)
    ensures StationOk(hist, Step(n, now, h)) && Published(n, now) == []
  {
    StationEmergency(hist, ApplyRequest(n));
    StationPrepare(hist, HandleEmergency(ApplyRequest(n)), now, h);
    StationDrain(hist, Settle(n, now));
    StationPrepare(hist, Drain(Settle(n, now)).0, now, h);
    StationRunFront(hist, Ready(n, now), now, h);
  }
}
