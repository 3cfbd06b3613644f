/**
 A vote on the ground station, from the request to the recorded outcome: no vote is lost, the
 outcome is what the votes decided, and it comes within the timeout.
 */
module Decision {
  import opened SwarmTypes
  import opened Motion
  import opened Tasks
  import opened Engine
  import Ballots
  import Controller

  /** The votes for tx among the queued commands, in order. */
  function VotesFor(commands: seq<Command>, own: uint8, tx: uint32): seq<Ballots.Cast> {
    if commands == [] then []
    else
      var c := commands[0];
      (if c.ConsensusCommand? && c.message.sender != own && c.message.vote != Pending && c.message.tx == tx
       then [Ballots.Cast(c.message.sender, c.message.vote)] else [])
      + VotesFor(commands[1..], own, tx)
  }

  lemma VotesCons(commands: seq<Command>, own: uint8, tx: uint32)
    requires commands != []
    ensures VotesFor(commands, own, tx) == VotesFor([commands[0]], own, tx) + VotesFor(commands[1..], own, tx)
  {
    assert [commands[0]][1..] == [];
  }

  /** A vote collector with ballot b is in front and has been entered; other tasks may wait behind it. */
  ghost predicate CollectsAhead(n: Node, b: Ballots.Ballot) {
    n.config.nodeType == GcsNode && n.queue != [] && n.queue[0].task == Voting(b) && n.started
  }

  /** It is the whole queue. */
  ghost predicate Collects(n: Node, b: Ballots.Ballot) {
    CollectsAhead(n, b) && |n.queue| == 1
  }

  /** Nothing changed but the collector itself. */
  ghost predicate SameButCollector(n: Node, m: Node)
    requires n.queue != []
  {
    && m.queue != [] && m.queue[0].id == n.queue[0].id && m.queue[1..] == n.queue[1..]
    && m.gone == n.gone && m.config == n.config && m.flight == n.flight
    && m.outcome == n.outcome && m.request == n.request
  }

  /** Processing the FIFO delivers to the collector in front exactly the foreign votes for its transaction, in order. */
  lemma {:induction false} DrainCollects(n: Node, b: Ballots.Ballot)
    requires CollectsAhead(n, b)
    ensures CollectsAhead(Drain(n).0, Ballots.Collect(b, VotesFor(n.commands, n.config.droneId, b.tx)))
    ensures SameButCollector(n, Drain(n).0)
    ensures |Drain(n).0.queue| == |n.queue|
    decreases |n.commands|
  {
    if n.commands != [] {
      var rest := n.(commands := n.commands[1..]);
      var n1 := ProcessCommand(rest, n.commands[0]).0;
      var own := n.config.droneId;
      var first, later := VotesFor([n.commands[0]], own, b.tx), VotesFor(n.commands[1..], own, b.tx);
      CommandCollects(rest, b, n.commands[0]);
      VotesCons(n.commands, own, b.tx);
      Ballots.CollectAppend(b, first, later);
      DrainCollects(n1, Ballots.Collect(b, first));
    }
  }

  lemma CommandCollects(n: Node, b: Ballots.Ballot, c: Command)
    requires CollectsAhead(n, b)
    ensures var n1 := ProcessCommand(n, c).0;
            var casts := VotesFor([c], n.config.droneId, b.tx);
            && CollectsAhead(n1, Ballots.Collect(b, casts)) && Ballots.Collect(b, casts).tx == b.tx
            && SameButCollector(n, n1) && |n1.queue| == |n.queue|
  {
    assert [c][1..] == [];
    var casts := VotesFor([c], n.config.droneId, b.tx);
    assert casts == [] || (casts == [casts[0]] && casts[1..] == []);
  }

  /** What a step makes of the ballot it found, once the waiting votes are in. */
  function Polled(n: Node, b: Ballots.Ballot, now: TimePoint): Ballots.Ballot {
    Ballots.Run(Ballots.Collect(b, VotesFor(n.commands, n.config.droneId, b.tx)), now)
  }

  lemma {:induction false} CollectKeepsIdentity(b: Ballots.Ballot, casts: seq<Ballots.Cast>)
    ensures var c := Ballots.Collect(b, casts);
            c.tx == b.tx && c.timeoutMs == b.timeoutMs && c.start == b.start && c.votes.Keys == b.votes.Keys
    decreases |casts|
  {
    if casts != [] {
      CollectKeepsIdentity(Ballots.OnVote(b, casts[0]), casts[1..]);
    }
  }

  /** The node has recorded b's result and the collector is gone. */
  ghost predicate Recorded(n: Node, b: Ballots.Ballot) {
    && n.outcome == Some(VoteOutcome(b.tx, b.result, b.byTimeout))
    && n.queue == []
    && b.result != Undecided
  }

  /** The collector goes on with ballot b, undecided. */
  ghost predicate Pends(n: Node, b: Ballots.Ballot) {
    Collects(n, b) && b.result == Undecided
  }

  lemma RunFrontPolls(n: Node, b: Ballots.Ballot, now: TimePoint, h: Hypot)
    requires Collects(n, b)
    ensures var r := Ballots.Run(b, now);
            if r.result != Undecided then Recorded(RunFront(n, now, h), r)
            else Pends(RunFront(n, now, h), r) && RunFront(n, now, h).outcome == n.outcome
    ensures RunFront(n, now, h).request == n.request
  {
  }

  /** From the settled state on, the step polls the ballot: it goes on undecided or is recorded and removed. */
  lemma SettledStepPolls(n: Node, b: Ballots.Ballot, now: TimePoint, h: Hypot)
    requires Collects(Settle(n, now), b) && Settle(n, now).commands == n.commands
    requires Settle(n, now).request == None && Settle(n, now).outcome == n.outcome
    ensures var r := Polled(n.(config := Settle(n, now).config), b, now);
            if r.result != Undecided then Recorded(Step(n, now, h), r)
            else Pends(Step(n, now, h), r) && Step(n, now, h).outcome == n.outcome
    ensures Step(n, now, h).request == None
  {
    var settled := Settle(n, now);
    DrainCollects(settled, b);
    var drained := Drain(settled).0;
    assert Ready(n, now) == drained;
    RunFrontPolls(drained, Ballots.Collect(b, VotesFor(n.commands, settled.config.droneId, b.tx)), now, h);
  }

  /** A vote in progress, at any step without a new request or a new emergency. */
  lemma OngoingVoteStep(n: Node, b: Ballots.Ballot, now: TimePoint, h: Hypot)
    requires Collects(n, b) && n.request == None && NoRisingEdge(n)
    ensures var r := Polled(n, b, now);
            if r.result != Undecided then Recorded(Step(n, now, h), r)
            else Pends(Step(n, now, h), r) && Step(n, now, h).outcome == n.outcome
    ensures Step(n, now, h).request == None
  {
    var settled := Settle(n, now);
    assert settled == HandleEmergency(n);
    SettledStepPolls(n, b, now, h);
  }

  /** The step that applies a request enters the collector first, then hears every waiting vote. */
  lemma RequestedVoteStep(n: Node, r: Request, now: TimePoint, h: Hypot)
    requires n.config.nodeType == GcsNode && n.request == Some(r) && NoRisingEdge(n)
    ensures var b := Ballots.Enter(Ballots.Open(r.tx, r.voters, Ballots.DEFAULT_TIMEOUT_MS), now);
            var p := Polled(n, b, now);
            if p.result != Undecided then Recorded(Step(n, now, h), p)
            else Pends(Step(n, now, h), p) && Step(n, now, h).outcome == n.outcome
    ensures Step(n, now, h).request == None
  {
    var b := Ballots.Enter(Ballots.Open(r.tx, r.voters, Ballots.DEFAULT_TIMEOUT_MS), now);
    var applied := ApplyRequest(n);
    assert HandleEmergency(applied).queue == applied.queue;
    assert Collects(Settle(n, now), b);
    SettledStepPolls(n, b, now, h);
  }

  /**
   No vote is lost.  When a step applies a request for a nonempty set of voters and no emergency
   begins, the votes already waiting decide at once: the step records COMMITTED exactly when at
   some moment all voters had said ACK and none NACK, it records ABORTED exactly when a voter said
   NACK before any such moment, and otherwise the vote goes on having counted all of them.
   */
  lemma WaitingVotesDecide(n: Node, r: Request, now: TimePoint, h: Hypot)
    requires n.config.nodeType == GcsNode && n.request == Some(r) && NoRisingEdge(n) && r.voters != []
    ensures var casts := VotesFor(n.commands, n.config.droneId, r.tx);
            var voters := set v | v in r.voters;
            var entered := Ballots.Enter(Ballots.Open(r.tx, r.voters, Ballots.DEFAULT_TIMEOUT_MS), now);
            var after := Step(n, now, h);
            && (Ballots.EverUnanimous(voters, casts) ==>
                  after.outcome == Some(VoteOutcome(r.tx, Committed, false)) && after.queue == [])
            && (Ballots.VoterNack(voters, casts) && !Ballots.EverUnanimous(voters, casts) ==>
                  after.outcome == Some(VoteOutcome(r.tx, Aborted, false)) && after.queue == [])
            && (!Ballots.VoterNack(voters, casts) && !Ballots.EverUnanimous(voters, casts) ==>
                  Pends(after, Ballots.Collect(entered, casts)))
  {
    var blank := Ballots.Open(r.tx, r.voters, Ballots.DEFAULT_TIMEOUT_MS);
    var casts := VotesFor(n.commands, n.config.droneId, r.tx);
    var b := Ballots.Enter(blank, now);
    assert blank.votes.Keys == set v | v in r.voters;
    assert r.voters[0] in blank.votes;
    RequestedVoteStep(n, r, now, h);
    Ballots.EnterKeepsDecision(blank, [], now);
    Ballots.CollectIgnoresStart(blank, casts, now);
    Ballots.CollectReflects(blank, casts);
    CollectKeepsIdentity(b, casts);
  }

  lemma {:induction false} DecidedStaysDecided(b: Ballots.Ballot, casts: seq<Ballots.Cast>)
    requires b.result != Undecided
    ensures Ballots.Collect(b, casts) == b
    decreases |casts|
  {
    if casts != [] {
      DecidedStaysDecided(b, casts[1..]);
    }
  }

  /** A vote among nobody: the step that applies the request records COMMITTED, whatever votes are waiting. */
  lemma EmptyVoteCommits(n: Node, r: Request, now: TimePoint, h: Hypot)
    requires n.config.nodeType == GcsNode && n.request == Some(r) && NoRisingEdge(n) && r.voters == []
    ensures Step(n, now, h).outcome == Some(VoteOutcome(r.tx, Committed, false))
  {
    var b := Ballots.Enter(Ballots.Open(r.tx, r.voters, Ballots.DEFAULT_TIMEOUT_MS), now);
    assert Ballots.Open(r.tx, r.voters, Ballots.DEFAULT_TIMEOUT_MS).votes == map[];
    RequestedVoteStep(n, r, now, h);
    DecidedStaysDecided(b, VotesFor(n.commands, n.config.droneId, r.tx));
  }

  /**
   Decision in bounded time.  Once a collector has been entered at time s, the first step at or
   after s plus the timeout records an outcome and removes it, unless a newer request or a new
   emergency replaced it; and the controller's next step on it leaves VOTING, publishing the order
   exactly on a commit.
   */
  lemma DecidedWithinTimeout(n: Node, b: Ballots.Ballot, now: TimePoint, h: Hypot, c: Controller.Proposer)
    requires Collects(n, b) && n.request == None && NoRisingEdge(n)
    requires b.timeoutMs > 0 && now >= b.start + b.timeoutMs * NS_PER_MS
    ensures var after := Step(n, now, h);
            && Recorded(after, Polled(n, b, now))
            && after.outcome.value.tx == b.tx
            && (c.state == Controller.VotingState && c.activeTx == b.tx ==>
                  var (c', published) := Controller.StepController(c, after.outcome);
                  && c'.state != Controller.VotingState
                  && (published == Some(c.pendingOrder) <==> after.outcome.value.result == Committed))
  {
    OngoingVoteStep(n, b, now, h);
    var casts := VotesFor(n.commands, n.config.droneId, b.tx);
    CollectKeepsIdentity(b, casts);
    Ballots.TimeoutDecides(Ballots.Collect(b, casts), now);
  }

  // ---------------------------------------------------------------------
  //  The tasks behind a vote
  // ---------------------------------------------------------------------

  /** Every one of these tasks has left the queue without a further call. */
  ghost predicate Abandoned(m: Node, waiting: seq<Slot>) {
    m.queue == [] && |waiting| <= |m.gone| && m.gone[|m.gone| - |waiting|..] == waiting
  }

  /** The first of these tasks is in front and entered at `now`, the others wait as before. */
  ghost predicate TakesUp(m: Node, waiting: seq<Slot>, now: TimePoint, f: Flight) {
    && |m.queue| == |waiting|
    && (waiting != [] ==>
          && m.queue[0] == Called(waiting[0], EnterTask(waiting[0].task, now, f).0, Entered) && m.started
          && m.activeType == TypeOf(waiting[0].task) && m.queue[1..] == waiting[1..])
  }

  /**
   The tasks behind a vote on the ground station.  An abort, by votes or by timeout, takes every one of
   them with it, not one more call being made on them; a commit lets the next one begin; and while the
   vote is open they wait.
   */
  lemma VoteDecidesForTheRest(n: Node, b: Ballots.Ballot, now: TimePoint, h: Hypot)
    requires CollectsAhead(n, b) && n.request == None && NoRisingEdge(n)
    ensures var m, waiting := Step(n, now, h), n.queue[1..];
            match Polled(n, b, now).result
            case Aborted => Abandoned(m, waiting)
            case Committed => TakesUp(m, waiting, now, n.flight)
            case Undecided => m.queue != [] && m.queue[1..] == waiting && m.gone == n.gone
  {
    var settled := Settle(n, now);
    SettleUndisturbed(n, now);
    SettleTakesRequest(n, now);
    SettleFrame(n, now);
    DrainCollects(settled, b);
    var ready := Drain(settled).0;
    assert Ready(n, now) == ready;
    ConcludeCollector(ready, Ballots.Collect(b, VotesFor(n.commands, n.config.droneId, b.tx)), now, h);
  }

  lemma ConcludeCollector(n: Node, b: Ballots.Ballot, now: TimePoint, h: Hypot)
    requires CollectsAhead(n, b)
    ensures var m, waiting := RunFront(n, now, h), n.queue[1..];
            match Ballots.Run(b, now).result
            case Aborted => Abandoned(m, waiting)
            case Committed => TakesUp(m, waiting, now, n.flight)
            case Undecided => m.queue != [] && m.queue[1..] == waiting && m.gone == n.gone
  {
    var (t, f) := RunTask(n.queue[0].task, now, n.flight, h);
    var ran := Advanced(n, t, f);
    assert ran.queue[1..] == n.queue[1..];
    if IsFinished(t) {
      var exited := ExitFront(RecordOutcome(ran, t));
      assert exited.queue == n.queue[1..];
      if |n.queue| > 1 {
        EnterKeepsKind(n.queue[1].task, now, f);
      }
    }
  }

  // ---------------------------------------------------------------------
  //  A whole vote
  // ---------------------------------------------------------------------

  /** Nothing interferes: no newer request, no pushed task, and no emergency begins at a step. */
  ghost predicate Undisturbed(n: Node, actions: seq<Action>, h: Hypot)
    decreases |actions|
  {
    actions != [] ==>
      var front, a := actions[..|actions| - 1], actions[|actions| - 1];
      && Undisturbed(n, front, h)
      && DroneAction(a)
      && (a.Tick? ==> NoRisingEdge(Execute(n, front, h)))
  }

  /** The votes for tx that the steps of the run have processed. */
  function Heard(n: Node, actions: seq<Action>, tx: uint32, h: Hypot): seq<Ballots.Cast>
    decreases |actions|
  {
    if actions == [] then []
    else
      var front, a := actions[..|actions| - 1], actions[|actions| - 1];
      var before := Execute(n, front, h);
      Heard(n, front, tx, h)
      + (if a.Tick? then VotesFor(before.commands, before.config.droneId, tx) else [])
  }

  /** The result that a set of voters and the votes heard demand, or a timeout while neither is reached. */
  ghost predicate Verdict(o: VoteOutcome, voters: set<uint8>, casts: seq<Ballots.Cast>) {
    if o.byTimeout then
      o.result == Aborted && !Ballots.EverUnanimous(voters, casts) && !Ballots.VoterNack(voters, casts)
    else && (o.result == Committed <==> Ballots.EverUnanimous(voters, casts))
         && (o.result == Aborted <==> Ballots.VoterNack(voters, casts) && !Ballots.EverUnanimous(voters, casts))
         && o.result != Undecided
  }

  ghost predicate NoCollectorQueued(n: Node) {
    forall i | 0 <= i < |n.queue| :: !n.queue[i].task.Voting?
  }

  /**
   The vote blank by `blank`, entered at s, after votes `heard` and steps at `ticks`: it still counts
   everything heard, no step having come as late as its deadline; or it was decided by what had been
   heard, by a timeout only if some step came at or past the deadline.
   */
  ghost predicate Accounted(n: Node, blank: Ballots.Ballot, s: TimePoint, heard: seq<Ballots.Cast>,
                            ticks: seq<TimePoint>) {
    && n.request == None && n.config.nodeType == GcsNode
    && (|| (Pends(n, Ballots.Collect(Ballots.Enter(blank, s), heard)) && !TimeIsUp(blank, s, ticks))
        || (&& NoCollectorQueued(n) && n.outcome.Some? && n.outcome.value.tx == blank.tx
            && (n.outcome.value.byTimeout ==> TimeIsUp(blank, s, ticks))
            && exists k :: 0 <= k <= |heard| && Verdict(n.outcome.value, blank.votes.Keys, heard[..k])))
  }

  /** Some step came at or past the deadline of the vote entered at s. */
  ghost predicate TimeIsUp(blank: Ballots.Ballot, s: TimePoint, ticks: seq<TimePoint>) {
    exists i :: 0 <= i < |ticks| && ticks[i] >= s + blank.timeoutMs * NS_PER_MS
  }

  ghost predicate ProperVote(blank: Ballots.Ballot) {
    Ballots.Fresh(blank) && blank.votes != map[] && blank.timeoutMs > 0
  }

  /** The ballot's decision, before or at a timeout, is the verdict on the votes. */
  lemma VerdictOfBallot(blank: Ballots.Ballot, s: TimePoint, casts: seq<Ballots.Cast>, now: TimePoint)
    requires ProperVote(blank)
    ensures var b := Ballots.Run(Ballots.Collect(Ballots.Enter(blank, s), casts), now);
            && b.tx == blank.tx
            && (b.result != Undecided ==> Verdict(VoteOutcome(b.tx, b.result, b.byTimeout), blank.votes.Keys, casts))
            && (b.result == Undecided ==>
                  b == Ballots.Collect(Ballots.Enter(blank, s), casts) && now < s + blank.timeoutMs * NS_PER_MS)
            && (b.byTimeout ==> now >= s + blank.timeoutMs * NS_PER_MS)
  {
    Ballots.EnterKeepsDecision(blank, [], s);
    Ballots.CollectIgnoresStart(blank, casts, s);
    Ballots.CollectReflects(blank, casts);
    CollectKeepsIdentity(Ballots.Enter(blank, s), casts);
    MillisReached(now - s, blank.timeoutMs);
  }

  lemma LaterTicks(blank: Ballots.Ballot, s: TimePoint, ticks: seq<TimePoint>, now: TimePoint)
    ensures TimeIsUp(blank, s, ticks + [now]) <==> TimeIsUp(blank, s, ticks) || now >= s + blank.timeoutMs * NS_PER_MS
  {
    var all := ticks + [now];
    assert all[|ticks|] == now;
    assert forall i | 0 <= i < |ticks| :: all[i] == ticks[i];
  }

  lemma VoteStepAccounts(n: Node, blank: Ballots.Ballot, s: TimePoint, heard: seq<Ballots.Cast>, ticks: seq<TimePoint>,
                         now: TimePoint, h: Hypot)
    requires ProperVote(blank) && Accounted(n, blank, s, heard, ticks) && NoRisingEdge(n)
    ensures var more := VotesFor(n.commands, n.config.droneId, blank.tx);
            Accounted(Step(n, now, h), blank, s, heard + more, ticks + [now])
  {
    LaterTicks(blank, s, ticks, now);
    StepFrame(n, now, h);
    if Pends(n, Ballots.Collect(Ballots.Enter(blank, s), heard)) {
      PendingStepAccounts(n, blank, s, heard, now, h);
    } else {
      var more := VotesFor(n.commands, n.config.droneId, blank.tx);
      QuietStep(n, now, h);
      var k :| 0 <= k <= |heard| && Verdict(n.outcome.value, blank.votes.Keys, heard[..k]);
      assert (heard + more)[..k] == heard[..k];
    }
  }

  /** One step of a vote in progress: it goes on before the deadline, or is decided by the votes or the deadline. */
  lemma PendingStepAccounts(n: Node, blank: Ballots.Ballot, s: TimePoint, heard: seq<Ballots.Cast>, now: TimePoint,
                            h: Hypot)
    requires ProperVote(blank) && Pends(n, Ballots.Collect(Ballots.Enter(blank, s), heard))
    requires n.request == None && NoRisingEdge(n)
    ensures var more := VotesFor(n.commands, n.config.droneId, blank.tx);
            var m, late := Step(n, now, h), now >= s + blank.timeoutMs * NS_PER_MS;
            && m.request == None
            && (|| (Pends(m, Ballots.Collect(Ballots.Enter(blank, s), heard + more)) && !late)
                || (&& NoCollectorQueued(m) && m.outcome.Some? && m.outcome.value.tx == blank.tx
                    && (m.outcome.value.byTimeout ==> late)
                    && Verdict(m.outcome.value, blank.votes.Keys, (heard + more)[..|heard + more|])))
  {
    var more := VotesFor(n.commands, n.config.droneId, blank.tx);
    var b := Ballots.Collect(Ballots.Enter(blank, s), heard);
    var all := Ballots.Collect(Ballots.Enter(blank, s), heard + more);
    CollectKeepsIdentity(Ballots.Enter(blank, s), heard);
    Ballots.CollectAppend(Ballots.Enter(blank, s), heard, more);
    OngoingVoteStep(n, b, now, h);
    assert Polled(n, b, now) == Ballots.Run(all, now);
    VerdictOfBallot(blank, s, heard + more, now);
    assert (heard + more)[..|heard + more|] == heard + more;
  }

  /**
   Every vote counts.  From a vote just entered at s, over any undisturbed run: as long as it is
   undecided it has counted every vote processed, and every step came before its deadline; when it is
   decided the recorded outcome is the verdict on the votes heard by then, a timeout only if a step came
   at or past the deadline; the outcome then stands.
   */
  lemma {:induction false} EveryVoteCounts(n: Node, blank: Ballots.Ballot, s: TimePoint, actions: seq<Action>, h: Hypot)
    requires ProperVote(blank) && Pends(n, Ballots.Enter(blank, s)) && n.request == None
    requires Undisturbed(n, actions, h)
    ensures Accounted(Execute(n, actions, h), blank, s, Heard(n, actions, blank.tx, h), TickTimes(actions))
    decreases |actions|
  {
    if actions == [] {
      assert Accounted(n, blank, s, [], []);
    } else {
      var front, a := actions[..|actions| - 1], actions[|actions| - 1];
      EveryVoteCounts(n, blank, s, front, h);
      var before, heard, ticks := Execute(n, front, h), Heard(n, front, blank.tx, h), TickTimes(front);
      if a.Tick? {
        VoteStepAccounts(before, blank, s, heard, ticks, a.now, h);
      } else {
        assert heard + [] == heard && ticks + [] == ticks;
        ArrivalAccounts(before, blank, s, heard, ticks, a, h);
      }
    }
  }

  /** Between steps nothing happens to a vote. */
  lemma ArrivalAccounts(n: Node, blank: Ballots.Ballot, s: TimePoint, heard: seq<Ballots.Cast>, ticks: seq<TimePoint>,
                        a: Action, h: Hypot)
    requires Accounted(n, blank, s, heard, ticks) && DroneAction(a) && !a.Tick?
    ensures Accounted(Act(n, a, h), blank, s, heard, ticks)
  {
    var m := Act(n, a, h);
    assert m.queue == n.queue && m.outcome == n.outcome && m.request == n.request && m.config == n.config
        && m.started == n.started;
  }

  // ---------------------------------------------------------------------
  //  Without a collector the recorded outcome does not change
  // ---------------------------------------------------------------------

  ghost predicate Quiet(n: Node, m: Node) {
    NoCollectorQueued(m) && m.outcome == n.outcome && m.request == None
  }

  lemma QuietPrepare(n: Node, now: TimePoint)
    requires NoCollectorQueued(n) && n.request == None
    ensures Quiet(n, Prepare(n, now))
  {
  }

  lemma {:induction false} QuietDrain(n: Node)
    requires NoCollectorQueued(n) && n.request == None
    ensures Quiet(n, Drain(n).0)
    decreases |n.commands|
  {
    if n.commands != [] {
      var rest := n.(commands := n.commands[1..]);
      QuietDrain(ProcessCommand(rest, n.commands[0]).0);
    }
  }

  lemma QuietRunFront(n: Node, now: TimePoint, h: Hypot)
    requires NoCollectorQueued(n) && n.request == None && n.queue != []
    ensures Quiet(n, RunFront(n, now, h))
  {
    var (t, f) := RunTask(n.queue[0].task, now, n.flight, h);
    RunKeepsKind(n.queue[0].task, now, n.flight, h);
  }

  lemma QuietStep(n: Node, now: TimePoint, h: Hypot)
    requires NoCollectorQueued(n) && n.request == None
    ensures Quiet(n, Step(n, now, h))
  {
    QuietPrepare(HandleEmergency(n), now);
    QuietDrain(Settle(n, now));
    QuietPrepare(Drain(Settle(n, now)).0, now);
    QuietRunFront(Ready(n, now), now, h);
  }

  // ---------------------------------------------------------------------
  //  An emergency that begins during a vote
  // ---------------------------------------------------------------------

  /** The step at which an emergency begins discards the vote, running or just requested, without an outcome. */
  lemma AlarmDiscardsVote(n: Node, now: TimePoint, h: Hypot)
    requires !NoRisingEdge(n)
    ensures Quiet(n, Step(n, now, h))
  {
    var placed := HandleEmergency(ApplyRequest(n));
    assert NoCollectorQueued(placed) && placed.outcome == n.outcome && placed.request == None;
    QuietPrepare(placed, now);
    QuietDrain(Settle(n, now));
    QuietPrepare(Drain(Settle(n, now)).0, now);
    QuietRunFront(Ready(n, now), now, h);
  }

  /**
   The exact condition for a timely decision.  At or past the deadline of a vote whose outcome has
   not been recorded, the step records it if and only if no emergency begins at that step.
   */
  lemma DecidedIffNoAlarm(n: Node, b: Ballots.Ballot, now: TimePoint, h: Hypot)
    requires Collects(n, b) && n.request == None && !Controller.Answers(n.outcome, b.tx)
    requires b.timeoutMs > 0 && now >= b.start + b.timeoutMs * NS_PER_MS
    ensures Controller.Answers(Step(n, now, h).outcome, b.tx) <==> NoRisingEdge(n)
  {
    if NoRisingEdge(n) {
      DecidedWithinTimeout(n, b, now, h, Controller.New());
    } else {
      AlarmDiscardsVote(n, now, h);
    }
  }

  /** Without a collector and without a new request the outcome never changes again, whatever arrives. */
  lemma {:induction false} OutcomeStands(n: Node, actions: seq<Action>, h: Hypot)
    requires NoCollectorQueued(n) && n.request == None
    requires forall i | 0 <= i < |actions| :: DroneAction(actions[i])
    ensures Quiet(n, Execute(n, actions, h))
    decreases |actions|
  {
    if actions != [] {
      var front, a := actions[..|actions| - 1], actions[|actions| - 1];
      OutcomeStands(n, front, h);
      QuietAct(Execute(n, front, h), a, h);
    }
  }

  lemma QuietAct(n: Node, a: Action, h: Hypot)
    requires NoCollectorQueued(n) && n.request == None && DroneAction(a)
    ensures Quiet(n, Act(n, a, h))
  {
    if a.Tick? {
      QuietStep(n, a.now, h);
    }
  }

  /** A vote struck by an emergency leaves its controller voting for good. */
  lemma StruckVoteNeverAnswers(n: Node, now: TimePoint, actions: seq<Action>, c: Controller.Proposer, h: Hypot)
    requires !NoRisingEdge(n) && !Controller.Answers(n.outcome, c.activeTx)
    requires forall i | 0 <= i < |actions| :: DroneAction(actions[i])
    ensures Controller.StepController(c, Execute(Step(n, now, h), actions, h).outcome) == (c, None)
  {
    AlarmDiscardsVote(n, now, h);
    OutcomeStands(Step(n, now, h), actions, h);
  }
}
