/**
 The mission loop comes to its end.  When the loop and the station's Task Engine keep turning at
 bounded gaps and no emergency strikes an open vote, both missions of the programme have been settled
 by a time that can be computed beforehand.
 */
module Progress {
  import opened SwarmTypes
  import opened Motion
  import opened Engine
  import opened Swarm
  import opened MissionLoop
  import opened VotePhases
  import Ballots
  import Controller
  import Decision
  import SwarmTheorems

  const TIMEOUT_NS: int := Ballots.DEFAULT_TIMEOUT_MS * NS_PER_MS

  // ---------------------------------------------------------------------
  //  The open vote, with the time its collector was entered
  // ---------------------------------------------------------------------

  ghost predicate CollectingFrom(n: Node, tx: uint32, start: TimePoint) {
    n.request == None && exists b :: Decision.Pends(n, b) && b.tx == tx && b.start == start
  }

  ghost predicate Open(s: System) {
    VoteTracked(s) && s.proposer.state == Controller.VotingState
  }

  ghost predicate Counting(s: System, start: TimePoint) {
    CollectingFrom(s.station, s.proposer.activeTx, start)
  }

  lemma RequestedTick(n: Node, tx: uint32, now: TimePoint, h: Hypot)
    requires Tracked(n, tx, true) && InPhase(n, tx, Requested) && NoRisingEdge(n)
    ensures InPhase(Step(n, now, h), tx, Answered) || CollectingFrom(Step(n, now, h), tx, now)
  {
    var r := n.request.value;
    var b := Ballots.Enter(Ballots.Open(r.tx, r.voters, Ballots.DEFAULT_TIMEOUT_MS), now);
    Decision.RequestedVoteStep(n, r, now, h);
    PolledIdentity(n, b, now);
  }

  /** A step keeps the entry time, and decides the vote when the timeout has passed since. */
  lemma CollectingTick(n: Node, tx: uint32, start: TimePoint, now: TimePoint, h: Hypot)
    requires Tracked(n, tx, true) && CollectingFrom(n, tx, start) && NoRisingEdge(n)
    ensures || InPhase(Step(n, now, h), tx, Answered)
            || (CollectingFrom(Step(n, now, h), tx, start) && now < start + TIMEOUT_NS)
  {
    var b :| Decision.Pends(n, b) && b.tx == tx && b.start == start;
    assert n.queue[0].task.ballot == b;
    Decision.OngoingVoteStep(n, b, now, h);
    PolledIdentity(n, b, now);
    if now >= start + TIMEOUT_NS {
      Ballots.TimeoutDecides(Ballots.Collect(b, Decision.VotesFor(n.commands, n.config.droneId, b.tx)), now);
    }
  }

  // ---------------------------------------------------------------------
  //  Moves of the environment
  // ---------------------------------------------------------------------

  lemma StaysOpen(s: System, m: Move, h: Hypot)
    requires Open(s) && Environmental(m)
    ensures Open(Apply(s, m, h)) && Apply(s, m, h).proposer == s.proposer
  {
    MoveTracked(s, m, h);
    var more := SwarmTheorems.HistoryGrows(s, m, h);
  }

  lemma AnsweredMove(s: System, m: Move, h: Hypot)
    requires Open(s) && Environmental(m) && OpenIn(s, Answered)
    ensures Open(Apply(s, m, h)) && OpenIn(Apply(s, m, h), Answered)
  {
    StaysOpen(s, m, h);
    if StationTicks(m) {
      TickTracked(s.station, s.proposer.activeTx, true, m.a.now, h);
    }
  }

  lemma RequestedMove(s: System, m: Move, h: Hypot)
    requires Open(s) && Environmental(m) && OpenIn(s, Requested) && !Strikes(s, m)
    ensures var s' := Apply(s, m, h);
            && Open(s')
            && (if StationTicks(m) then OpenIn(s', Answered) || Counting(s', m.a.now) else OpenIn(s', Requested))
  {
    StaysOpen(s, m, h);
    if StationTicks(m) {
      RequestedTick(s.station, s.proposer.activeTx, m.a.now, h);
    }
  }

  lemma CountingMove(s: System, m: Move, start: TimePoint, h: Hypot)
    requires Open(s) && Environmental(m) && Counting(s, start) && !Strikes(s, m)
    ensures var s' := Apply(s, m, h);
            && Open(s')
            && (|| OpenIn(s', Answered)
                || (Counting(s', start) && (StationTicks(m) ==> m.a.now < start + TIMEOUT_NS)))
  {
    StaysOpen(s, m, h);
    if StationTicks(m) {
      CollectingTick(s.station, s.proposer.activeTx, start, m.a.now, h);
    }
  }

  // ---------------------------------------------------------------------
  //  Stretches of the environment's moves
  // ---------------------------------------------------------------------

  /** The station's ticks in this stretch read times between `low` and `high`. */
  ghost predicate TicksWithin(moves: seq<Move>, low: TimePoint, high: TimePoint) {
    forall i | 0 <= i < |moves| && StationTicks(moves[i]) :: low <= moves[i].a.now <= high
  }

  ghost predicate HasTick(moves: seq<Move>) {
    exists i :: 0 <= i < |moves| && StationTicks(moves[i])
  }

  ghost predicate AllEnvironmental(moves: seq<Move>) {
    forall i | 0 <= i < |moves| :: Environmental(moves[i])
  }

  /** No emergency strikes the open vote. */
  ghost predicate Unstruck(s: System, moves: seq<Move>, h: Hypot)
    decreases |moves|
  {
    moves != [] ==>
      var front, m := moves[..|moves| - 1], moves[|moves| - 1];
      Unstruck(s, front, h) && !Strikes(Run(s, front, h), m)
  }

  /** What a stretch makes of an open vote that was requested when it began. */
  ghost predicate FromRequested(s: System, moves: seq<Move>, low: TimePoint, high: TimePoint) {
    && Open(s)
    && (|| OpenIn(s, Answered)
        || (exists start :: low <= start <= high && Counting(s, start))
        || (OpenIn(s, Requested) && !HasTick(moves)))
  }

  /** What a stretch makes of a vote whose collector was entered at `start`. */
  ghost predicate FromCounting(s: System, moves: seq<Move>, start: TimePoint, low: TimePoint) {
    && Open(s)
    && (OpenIn(s, Answered) || (Counting(s, start) && (HasTick(moves) ==> low < start + TIMEOUT_NS)))
  }

  lemma {:induction false} AnsweredStretch(s: System, moves: seq<Move>, h: Hypot)
    requires Open(s) && OpenIn(s, Answered) && AllEnvironmental(moves)
    ensures Open(Run(s, moves, h)) && OpenIn(Run(s, moves, h), Answered)
    decreases |moves|
  {
    if moves != [] {
      AnsweredStretch(s, moves[..|moves| - 1], h);
      AnsweredMove(Run(s, moves[..|moves| - 1], h), moves[|moves| - 1], h);
    }
  }

  lemma RequestedNext(s: System, front: seq<Move>, m: Move, low: TimePoint, high: TimePoint, h: Hypot)
    requires FromRequested(s, front, low, high) && Environmental(m) && !Strikes(s, m)
    requires StationTicks(m) ==> low <= m.a.now <= high
    ensures FromRequested(Apply(s, m, h), front + [m], low, high)
  {
    if OpenIn(s, Answered) {
      AnsweredMove(s, m, h);
    } else if exists start :: low <= start <= high && Counting(s, start) {
      var start :| low <= start <= high && Counting(s, start);
      CountingMove(s, m, start, h);
    } else {
      RequestedMove(s, m, h);
      assert forall i | 0 <= i < |front| :: (front + [m])[i] == front[i];
    }
  }

  lemma {:induction false} RequestedStretch(s: System, moves: seq<Move>, low: TimePoint, high: TimePoint, h: Hypot)
    requires Open(s) && OpenIn(s, Requested) && AllEnvironmental(moves)
    requires TicksWithin(moves, low, high) && Unstruck(s, moves, h)
    ensures FromRequested(Run(s, moves, h), moves, low, high)
    decreases |moves|
  {
    if moves != [] {
      var front, m := moves[..|moves| - 1], moves[|moves| - 1];
      assert moves == front + [m];
      RequestedStretch(s, front, low, high, h);
      RequestedNext(Run(s, front, h), front, m, low, high, h);
    }
  }

  lemma CountingNext(s: System, front: seq<Move>, m: Move, start: TimePoint, low: TimePoint, h: Hypot)
    requires FromCounting(s, front, start, low) && Environmental(m) && !Strikes(s, m)
    requires StationTicks(m) ==> low <= m.a.now
    ensures FromCounting(Apply(s, m, h), front + [m], start, low)
  {
    if OpenIn(s, Answered) {
      AnsweredMove(s, m, h);
    } else {
      CountingMove(s, m, start, h);
      assert forall i | 0 <= i < |front| :: (front + [m])[i] == front[i];
    }
  }

  lemma {:induction false} CountingStretch(s: System, moves: seq<Move>, start: TimePoint, low: TimePoint,
                                           high: TimePoint, h: Hypot)
    requires Open(s) && Counting(s, start) && AllEnvironmental(moves)
    requires TicksWithin(moves, low, high) && Unstruck(s, moves, h)
    ensures FromCounting(Run(s, moves, h), moves, start, low)
    decreases |moves|
  {
    if moves != [] {
      var front, m := moves[..|moves| - 1], moves[|moves| - 1];
      assert moves == front + [m];
      CountingStretch(s, front, start, low, high, h);
      CountingNext(Run(s, front, h), front, m, start, low, h);
    }
  }

  lemma {:induction false} TrackedStretch(s: System, moves: seq<Move>, h: Hypot)
    requires VoteTracked(s) && AllEnvironmental(moves)
    ensures VoteTracked(Run(s, moves, h))
    decreases |moves|
  {
    if moves != [] {
      TrackedStretch(s, moves[..|moves| - 1], h);
      MoveTracked(Run(s, moves[..|moves| - 1], h), moves[|moves| - 1], h);
    }
  }

  // ---------------------------------------------------------------------
  //  One iteration of the loop
  // ---------------------------------------------------------------------

  /** The first offer is due when discovery is over. */
  function FirstDue(began: TimePoint): TimePoint {
    if began + DISCOVERY_NS >= 0 then began + DISCOVERY_NS else 0
  }

  /** Mission k is offered no later than this, when no two iterations are more than `gap` apart. */
  function OfferBound(began: TimePoint, gap: int, k: nat): TimePoint {
    if k == 0 then FirstDue(began) + gap else FirstDue(began) + TIMEOUT_NS + PAUSE_NS + 5 * gap
  }

  /** Both missions are settled by this time. */
  function ProgrammeBound(began: TimePoint, gap: int): TimePoint {
    FirstDue(began) + 2 * TIMEOUT_NS + PAUSE_NS + 7 * gap
  }

  /** Between missions, with the next offer not yet due at `last`. */
  ghost predicate Pausing(l: Loop, began: TimePoint, gap: int, last: TimePoint) {
    && (l.nextTask == 0 ==> l.nextProposalTime == 0)
    && (l.nextTask == 1 ==> l.nextProposalTime <= FirstDue(began) + TIMEOUT_NS + PAUSE_NS + 4 * gap)
    && (l.nextTask < |MISSIONS| ==> last < began + DISCOVERY_NS || last < l.nextProposalTime)
  }

  function OfferedAt(l: Loop): TimePoint
    requires l.log != []
  {
    l.log[|l.log| - 1].at
  }

  /** The open vote of an offer made in time has not outlived its timeout by more than a gap. */
  ghost predicate AwaitingResult(s: System, l: Loop, began: TimePoint, gap: int, last: TimePoint) {
    && l.log != [] && OfferedAt(l) <= last && OfferedAt(l) <= OfferBound(began, gap, l.nextTask)
    && (|| (OpenIn(s, Requested) && last == OfferedAt(l))
        || (exists start :: OfferedAt(l) <= start <= OfferedAt(l) + gap && Counting(s, start)
                            && last < start + TIMEOUT_NS + gap))
  }

  /** At the end of an iteration that read its clock at `last`. */
  ghost predicate OnSchedule(s: System, l: Loop, began: TimePoint, gap: int, last: TimePoint) {
    && InStep(s, l, began) && VoteTracked(s) && began <= last
    && (if l.proposalPending then Pausing(l, began, gap, last) else AwaitingResult(s, l, began, gap, last))
  }

  /** The state in which an iteration looks at the outcome. */
  function Looked(s: System, l: Loop, began: TimePoint, t: Turn, h: Hypot): System {
    Run(Run(Run(s, t.before, h), OfferMoves(l, began, t.now), h), t.between, h)
  }

  /** The last part of an iteration: a decided vote is settled, an open one is left alone. */
  lemma ResultOnSchedule(s: System, l: Loop, began: TimePoint, gap: int, now: TimePoint)
    requires InStep(s, l, began) && VoteTracked(s) && began <= now && gap >= 0 && !l.proposalPending
    requires l.log != [] && OfferedAt(l) <= now && OfferedAt(l) <= OfferBound(began, gap, l.nextTask)
    requires OpenIn(s, Answered) ==> now <= OfferedAt(l) + TIMEOUT_NS + 3 * gap
    requires !OpenIn(s, Answered) ==> AwaitingResult(s, l, began, gap, now)
    ensures OnSchedule(AfterResult(s), CheckResult(l, now, s.station.outcome), began, gap, now)
  {
    AfterResultInStep(s, l, began, now);
    if !OpenIn(s, Answered) {
      assert CheckResult(l, now, s.station.outcome) == l;
      StillAwaiting(s, AfterResult(s), l, began, gap, now);
    }
  }

  lemma StillAwaiting(s: System, s': System, l: Loop, began: TimePoint, gap: int, now: TimePoint)
    requires AwaitingResult(s, l, began, gap, now) && s'.station == s.station && s'.proposer == s.proposer
    ensures AwaitingResult(s', l, began, gap, now)
  {
    if !(OpenIn(s, Requested) && now == OfferedAt(l)) {
      var start :| OfferedAt(l) <= start <= OfferedAt(l) + gap && Counting(s, start) && now < start + TIMEOUT_NS + gap;
      assert Counting(s', start);
    }
  }

  /** The clock and the ticks of an iteration that comes at most `gap` after the one before. */
  ghost predicate Regular(t: Turn, gap: int, last: TimePoint) {
    && last <= t.now <= last + gap
    && TicksWithin(t.before, last, t.now) && HasTick(t.before)
    && TicksWithin(t.between, t.now, t.now + gap)
  }

  /** An open vote that the stretch before the loop's iteration has left decided, or counting still. */
  lemma AwaitedBefore(s: System, l: Loop, began: TimePoint, gap: int, last: TimePoint, t: Turn, h: Hypot)
    requires OnSchedule(s, l, began, gap, last) && !l.proposalPending && gap >= 0
    requires AllEnvironmental(t.before) && Regular(t, gap, last) && Unstruck(s, t.before, h)
    ensures var s1 := Run(s, t.before, h);
            && Open(s1) && t.now <= OfferedAt(l) + TIMEOUT_NS + 3 * gap
            && (|| OpenIn(s1, Answered)
                || (exists start :: OfferedAt(l) <= start <= OfferedAt(l) + gap && Counting(s1, start)
                                    && t.now < start + TIMEOUT_NS + gap))
  {
    if OpenIn(s, Requested) && last == OfferedAt(l) {
      RequestedStretch(s, t.before, last, t.now, h);
    } else {
      var start :| OfferedAt(l) <= start <= OfferedAt(l) + gap && Counting(s, start) && last < start + TIMEOUT_NS + gap;
      CountingStretch(s, t.before, start, last, t.now, h);
    }
  }

  /** Later moves of the environment leave it decided or counting. */
  lemma AwaitedBetween(s1: System, l: Loop, gap: int, now: TimePoint, moves: seq<Move>, h: Hypot)
    requires Open(s1) && AllEnvironmental(moves) && Unstruck(s1, moves, h) && l.log != []
    requires TicksWithin(moves, now, now + gap)
    requires || OpenIn(s1, Answered)
             || (exists start :: OfferedAt(l) <= start <= OfferedAt(l) + gap && Counting(s1, start)
                                 && now < start + TIMEOUT_NS + gap)
    ensures var s3 := Run(s1, moves, h);
            && Open(s3)
            && (|| OpenIn(s3, Answered)
                || (exists start :: OfferedAt(l) <= start <= OfferedAt(l) + gap && Counting(s3, start)
                                    && now < start + TIMEOUT_NS + gap))
  {
    if OpenIn(s1, Answered) {
      AnsweredStretch(s1, moves, h);
    } else {
      var start :| OfferedAt(l) <= start <= OfferedAt(l) + gap && Counting(s1, start) && now < start + TIMEOUT_NS + gap;
      CountingStretch(s1, moves, start, now, now + gap, h);
    }
  }

  lemma VotingTurn(s: System, l: Loop, began: TimePoint, gap: int, last: TimePoint, t: Turn, h: Hypot)
    requires OnSchedule(s, l, began, gap, last) && !l.proposalPending && gap >= 0 && Fair(t) && Regular(t, gap, last)
    requires Unstruck(s, t.before, h) && Unstruck(Run(s, t.before, h), t.between, h)
    ensures var s3 := Looked(s, l, began, t, h);
            OnSchedule(AfterResult(s3), CheckResult(l, t.now, s3.station.outcome), began, gap, t.now)
  {
    var s1 := Run(s, t.before, h);
    EnvironmentInStep(s, l, began, t.before, h);
    AwaitedBefore(s, l, began, gap, last, t, h);
    EnvironmentInStep(s1, l, began, t.between, h);
    AwaitedBetween(s1, l, gap, t.now, t.between, h);
    assert OfferMoves(l, began, t.now) == [] && Run(s1, [], h) == s1;
    ResultOnSchedule(Run(s1, t.between, h), l, began, gap, t.now);
  }

  /** Nothing is due: only the environment has moved. */
  lemma PausingTurn(s: System, l: Loop, began: TimePoint, gap: int, last: TimePoint, t: Turn, h: Hypot)
    requires OnSchedule(s, l, began, gap, last) && l.proposalPending && gap >= 0 && Fair(t) && Regular(t, gap, last)
    requires !Due(l, began, t.now)
    ensures var s3 := Looked(s, l, began, t, h);
            OnSchedule(AfterResult(s3), CheckResult(l, t.now, s3.station.outcome), began, gap, t.now)
  {
    var s1 := Run(s, t.before, h);
    EnvironmentInStep(s, l, began, t.before, h);
    TrackedStretch(s, t.before, h);
    EnvironmentInStep(s1, l, began, t.between, h);
    TrackedStretch(s1, t.between, h);
    assert Run(s1, [], h) == s1;
    var s3 := Run(s1, t.between, h);
    AfterResultInStep(s3, l, began, t.now);
    assert CheckResult(l, t.now, s3.station.outcome) == l;
  }

  /** The offer of an iteration: the vote is requested, in time. */
  lemma OfferOpens(s: System, l: Loop, began: TimePoint, gap: int, last: TimePoint, now: TimePoint, h: Hypot)
    requires InStep(s, l, began) && VoteTracked(s) && Pausing(l, began, gap, last) && gap >= 0
    requires Due(l, began, now) && now <= last + gap
    ensures var s2, l2 := Run(s, OfferMoves(l, began, now), h), OfferIfDue(l, began, now);
            && InStep(s2, l2, began) && Open(s2) && OpenIn(s2, Requested)
            && !l2.proposalPending && l2.nextTask == l.nextTask && l2.log != [] && OfferedAt(l2) == now
            && now <= OfferBound(began, gap, l.nextTask)
  {
    var target := MISSIONS[l.nextTask];
    OfferInStep(s, l, began, now, h);
    ProposalOpens(s, target.role, target.x, target.y, h);
  }

  /** After the offer the step may enter the collector, even decide the vote, or not come yet. */
  lemma OfferedBetween(s2: System, l2: Loop, began: TimePoint, gap: int, moves: seq<Move>, h: Hypot)
    requires Open(s2) && OpenIn(s2, Requested) && l2.log != [] && gap >= 0
    requires OfferedAt(l2) <= OfferBound(began, gap, l2.nextTask)
    requires AllEnvironmental(moves) && Unstruck(s2, moves, h)
    requires TicksWithin(moves, OfferedAt(l2), OfferedAt(l2) + gap)
    ensures var s3 := Run(s2, moves, h);
            && Open(s3) && (!OpenIn(s3, Answered) ==> AwaitingResult(s3, l2, began, gap, OfferedAt(l2)))
  {
    RequestedStretch(s2, moves, OfferedAt(l2), OfferedAt(l2) + gap, h);
  }

  lemma OfferingTurn(s: System, l: Loop, began: TimePoint, gap: int, last: TimePoint, t: Turn, h: Hypot)
    requires OnSchedule(s, l, began, gap, last) && l.proposalPending && gap >= 0 && Fair(t) && Regular(t, gap, last)
    requires Due(l, began, t.now)
    requires Unstruck(Run(Run(s, t.before, h), OfferMoves(l, began, t.now), h), t.between, h)
    ensures var s3 := Looked(s, l, began, t, h);
            OnSchedule(AfterResult(s3), Iterate(l, began, t.now, s3.station.outcome), began, gap, t.now)
  {
    var s1 := Run(s, t.before, h);
    EnvironmentInStep(s, l, began, t.before, h);
    TrackedStretch(s, t.before, h);
    OfferOpens(s1, l, began, gap, last, t.now, h);
    var s2, l2 := Run(s1, OfferMoves(l, began, t.now), h), OfferIfDue(l, began, t.now);
    EnvironmentInStep(s2, l2, began, t.between, h);
    OfferedBetween(s2, l2, began, gap, t.between, h);
    ResultOnSchedule(Run(s2, t.between, h), l2, began, gap, t.now);
  }

  // ---------------------------------------------------------------------
  //  The whole programme
  // ---------------------------------------------------------------------

  /** The clock of the loop's last iteration, or its start. */
  function LastTurn(began: TimePoint, turns: seq<Turn>): TimePoint {
    if turns == [] then began else turns[|turns| - 1].now
  }

  /** No emergency strikes an open vote during an iteration. */
  ghost predicate TurnUnstruck(s: System, l: Loop, began: TimePoint, t: Turn, h: Hypot) {
    && Unstruck(s, t.before, h)
    && Unstruck(Run(Run(s, t.before, h), OfferMoves(l, began, t.now), h), t.between, h)
  }

  /**
   Iterations at most `gap` apart, each preceded by a step of the station since the one before, and
   no emergency that strikes an open vote.
   */
  ghost predicate Clockwork(s0: System, began: TimePoint, turns: seq<Turn>, gap: int, h: Hypot)
    decreases |turns|
  {
    turns != [] ==>
      var front, t := turns[..|turns| - 1], turns[|turns| - 1];
      Clockwork(s0, began, front, gap, h) && NextTurn(s0, began, front, t, gap, h)
  }

  lemma TurnOnSchedule(s: System, l: Loop, began: TimePoint, gap: int, last: TimePoint, t: Turn, h: Hypot)
    requires OnSchedule(s, l, began, gap, last) && gap >= 0 && Fair(t) && Regular(t, gap, last)
    requires TurnUnstruck(s, l, began, t, h)
    ensures var s3 := Looked(s, l, began, t, h);
            OnSchedule(AfterResult(s3), Iterate(l, began, t.now, s3.station.outcome), began, gap, t.now)
  {
    if !l.proposalPending {
      assert OfferMoves(l, began, t.now) == [] && Run(Run(s, t.before, h), [], h) == Run(s, t.before, h);
      VotingTurn(s, l, began, gap, last, t, h);
    } else if Due(l, began, t.now) {
      OfferingTurn(s, l, began, gap, last, t, h);
    } else {
      PausingTurn(s, l, began, gap, last, t, h);
    }
  }

  /** The parts of an iteration, one after the other. */
  lemma LookedRun(s0: System, moves: seq<Move>, l: Loop, began: TimePoint, t: Turn, h: Hypot)
    ensures var looked := moves + t.before + OfferMoves(l, began, t.now) + t.between;
            && Run(s0, looked, h) == Looked(Run(s0, moves, h), l, began, t, h)
            && Run(s0, looked + ResultMoves(), h) == AfterResult(Looked(Run(s0, moves, h), l, began, t, h))
  {
    var offer := OfferMoves(l, began, t.now);
    RunAppends(s0, moves, t.before, h);
    RunAppends(s0, moves + t.before, offer, h);
    RunAppends(s0, moves + t.before + offer, t.between, h);
    var looked := moves + t.before + offer + t.between;
    RunAppends(s0, looked, ResultMoves(), h);
    ResultMovesRun(Run(s0, looked, h), h);
  }

  ghost predicate DrivenInTime(s0: System, began: TimePoint, turns: seq<Turn>, gap: int, h: Hypot) {
    var (moves, l) := Drive(s0, began, turns, h);
    OnSchedule(Run(s0, moves, h), l, began, gap, LastTurn(began, turns))
  }

  lemma InitialInTime(s0: System, began: TimePoint, gap: int, h: Hypot)
    requires Initial(s0)
    ensures DrivenInTime(s0, began, [], gap, h)
  {
    assert Run(s0, [], h) == s0;
  }

  lemma ClockworkSnoc(s0: System, began: TimePoint, front: seq<Turn>, t: Turn, gap: int, h: Hypot)
    requires Clockwork(s0, began, front + [t], gap, h)
    ensures Clockwork(s0, began, front, gap, h) && NextTurn(s0, began, front, t, gap, h)
  {
    assert (front + [t])[..|front|] == front;
  }

  lemma {:induction false} DrivenOnSchedule(s0: System, began: TimePoint, turns: seq<Turn>, gap: int, h: Hypot)
    requires Initial(s0) && gap >= 0 && Clockwork(s0, began, turns, gap, h)
    ensures DrivenInTime(s0, began, turns, gap, h)
    decreases |turns|
  {
    if turns == [] {
      InitialInTime(s0, began, gap, h);
    } else {
      var front, t := turns[..|turns| - 1], turns[|turns| - 1];
      LastTurnSplits(turns);
      ClockworkSnoc(s0, began, front, t, gap, h);
      DrivenOnSchedule(s0, began, front, gap, h);
      NextOnSchedule(s0, began, front, t, gap, h);
    }
  }

  /** The turn after these is regular, and no emergency strikes in it. */
  ghost predicate NextTurn(s0: System, began: TimePoint, front: seq<Turn>, t: Turn, gap: int, h: Hypot) {
    var (moves, l) := Drive(s0, began, front, h);
    && Fair(t) && Regular(t, gap, LastTurn(began, front))
    && TurnUnstruck(Run(s0, moves, h), l, began, t, h)
  }

  lemma NextOnSchedule(s0: System, began: TimePoint, front: seq<Turn>, t: Turn, gap: int, h: Hypot)
    requires gap >= 0 && NextTurn(s0, began, front, t, gap, h) && DrivenInTime(s0, began, front, gap, h)
    ensures DrivenInTime(s0, began, front + [t], gap, h)
  {
    var (moves, l) := Drive(s0, began, front, h);
    DriveSnoc(s0, began, front, t, h);
    LookedRun(s0, moves, l, began, t, h);
    TurnOnSchedule(Run(s0, moves, h), l, began, gap, LastTurn(began, front), t, h);
  }

  lemma ScheduleEnds(s: System, l: Loop, began: TimePoint, gap: int, last: TimePoint)
    requires OnSchedule(s, l, began, gap, last) && gap >= 0 && last >= ProgrammeBound(began, gap)
    ensures l.nextTask == |MISSIONS| && |Programme(s.history)| == 2 * |MISSIONS|
  {
  }

  /**
   The programme completes.  If the loop turns and the station steps at least once every `gap`, and no
   emergency strikes an open vote, then from a time known in advance (discovery, two votes at their
   timeout, the pause between them and seven gaps) both missions have been offered and settled: the
   controller's events are two proposals, each followed by its order or its withdrawal.
   */
  lemma ProgrammeCompletes(s0: System, began: TimePoint, turns: seq<Turn>, gap: int, h: Hypot)
    requires Initial(s0) && gap >= 0 && Clockwork(s0, began, turns, gap, h)
    requires LastTurn(began, turns) >= ProgrammeBound(began, gap)
    ensures var (moves, l) := Drive(s0, began, turns, h);
            && l.nextTask == |MISSIONS| && |Programme(Run(s0, moves, h).history)| == 2 * |MISSIONS|
            && InStep(Run(s0, moves, h), l, began)
  {
    DrivenOnSchedule(s0, began, turns, gap, h);
    var (moves, l) := Drive(s0, began, turns, h);
    ScheduleEnds(Run(s0, moves, h), l, began, gap, LastTurn(began, turns));
  }
}
