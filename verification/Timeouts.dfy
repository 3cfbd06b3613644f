/**
 When a vote may time out, in every reachable state: only at a step that comes at least five seconds
 after the step that took up its request.
 */
module Timeouts {
  import opened SwarmTypes
  import opened Motion
  import opened Engine
  import opened Swarm
  import opened VotePhases
  import Ballots
  import Decision
  import SwarmTheorems

  /** Move i of the run is the station's step that took up the request for a vote on tx. */
  ghost predicate TookUp(s0: System, moves: seq<Move>, i: int, tx: uint32, h: Hypot) {
    && 0 <= i < |moves| && StationTicks(moves[i])
    && InPhase(Run(s0, moves[..i], h).station, tx, Requested)
  }

  /** A step took up the request for tx at this time. */
  ghost predicate TakenUpAt(s0: System, moves: seq<Move>, tx: uint32, start: TimePoint, h: Hypot) {
    exists i :: TookUp(s0, moves, i, tx, h) && moves[i].a.now == start
  }

  /** Some step of the station came at least 5 s after the step that took up the request for tx. */
  ghost predicate FiveSecondsPassed(s0: System, moves: seq<Move>, tx: uint32, h: Hypot) {
    exists i, j | 0 <= i < j < |moves| ::
      && TookUp(s0, moves, i, tx, h) && StationTicks(moves[j])
      && moves[j].a.now >= moves[i].a.now + 5_000_000_000
  }

  /** The station's collector knows when it was taken up, and a timeout on record was due. */
  ghost predicate Clocked(s0: System, moves: seq<Move>, n: Node, h: Hypot) {
    && (forall b :: Decision.Pends(n, b) ==> !b.byTimeout && TakenUpAt(s0, moves, b.tx, b.start, h))
    && (n.outcome.Some? && n.outcome.value.byTimeout ==> FiveSecondsPassed(s0, moves, n.outcome.value.tx, h))
  }

  // ---------------------------------------------------------------------
  //  One more move
  // ---------------------------------------------------------------------

  lemma Remembered(s0: System, front: seq<Move>, m: Move, tx: uint32, start: TimePoint, h: Hypot)
    ensures TakenUpAt(s0, front, tx, start, h) ==> TakenUpAt(s0, front + [m], tx, start, h)
    ensures FiveSecondsPassed(s0, front, tx, h) ==> FiveSecondsPassed(s0, front + [m], tx, h)
    ensures StationTicks(m) && InPhase(Run(s0, front, h).station, tx, Requested) ==>
              TakenUpAt(s0, front + [m], tx, m.a.now, h)
    ensures StationTicks(m) && TakenUpAt(s0, front, tx, start, h) && m.a.now >= start + 5_000_000_000 ==>
              FiveSecondsPassed(s0, front + [m], tx, h)
  {
    var all := front + [m];
    assert all[|front|] == m && all[..|front|] == front;
    forall i | 0 <= i < |front|
      ensures all[i] == front[i] && (TookUp(s0, front, i, tx, h) <==> TookUp(s0, all, i, tx, h))
    {
      assert all[..i] == front[..i];
    }
    if TakenUpAt(s0, front, tx, start, h) {
      var i :| TookUp(s0, front, i, tx, h) && front[i].a.now == start;
      assert TookUp(s0, all, i, tx, h) && all[i].a.now == start;
    }
    if FiveSecondsPassed(s0, front, tx, h) {
      var i, j :| 0 <= i < j < |front| && TookUp(s0, front, i, tx, h) && StationTicks(front[j])
               && front[j].a.now >= front[i].a.now + 5_000_000_000;
      assert TookUp(s0, all, i, tx, h) && StationTicks(all[j]);
    }
    if StationTicks(m) && InPhase(Run(s0, front, h).station, tx, Requested) {
      assert TookUp(s0, all, |front|, tx, h);
    }
  }

  /** The step that takes up a request enters the collector now, and cannot time it out. */
  lemma TakingUp(n: Node, tx: uint32, now: TimePoint, h: Hypot)
    requires Tracked(n, tx, true) && InPhase(n, tx, Requested) && NoRisingEdge(n)
    ensures var m := Step(n, now, h);
            && (forall b :: Decision.Pends(m, b) ==> b.tx == tx && b.start == now && !b.byTimeout)
            && (m.outcome == n.outcome || (m.outcome.Some? && !m.outcome.value.byTimeout))
  {
    var r := n.request.value;
    var b := Ballots.Enter(Ballots.Open(r.tx, r.voters, Ballots.DEFAULT_TIMEOUT_MS), now);
    Decision.RequestedVoteStep(n, r, now, h);
    PolledIdentity(n, b, now);
    EnteredIsFresh(n, r, now);
  }

  lemma EnteredIsFresh(n: Node, r: Request, now: TimePoint)
    ensures var b := Ballots.Enter(Ballots.Open(r.tx, r.voters, Ballots.DEFAULT_TIMEOUT_MS), now);
            !Decision.Polled(n, b, now).byTimeout
  {
    var b := Ballots.Enter(Ballots.Open(r.tx, r.voters, Ballots.DEFAULT_TIMEOUT_MS), now);
    var casts := Decision.VotesFor(n.commands, n.config.droneId, b.tx);
    Decision.CollectKeepsIdentity(b, casts);
    VotesNeverTimeOut(b, casts);
  }

  lemma {:induction false} VotesNeverTimeOut(b: Ballots.Ballot, casts: seq<Ballots.Cast>)
    ensures Ballots.Collect(b, casts).byTimeout == b.byTimeout
    decreases |casts|
  {
    if casts != [] {
      VotesNeverTimeOut(Ballots.OnVote(b, casts[0]), casts[1..]);
    }
  }

  /** A step polls the collector it finds: it stays the same vote, or times out five seconds after its start. */
  lemma Polling(n: Node, tx: uint32, b: Ballots.Ballot, now: TimePoint, h: Hypot)
    requires Tracked(n, tx, true) && n.request == None && Decision.Pends(n, b) && NoRisingEdge(n) && !b.byTimeout
    ensures var m := Step(n, now, h);
            && (forall c :: Decision.Pends(m, c) ==> c.tx == b.tx && c.start == b.start && !c.byTimeout)
            && (|| m.outcome == n.outcome
                || (&& m.outcome.Some? && m.outcome.value.tx == b.tx
                    && (m.outcome.value.byTimeout ==> now >= b.start + 5_000_000_000)))
  {
    var casts := Decision.VotesFor(n.commands, n.config.droneId, b.tx);
    Decision.OngoingVoteStep(n, b, now, h);
    PolledIdentity(n, b, now);
    VotesNeverTimeOut(b, casts);
    Decision.CollectKeepsIdentity(b, casts);
    MillisReached(now - b.start, Ballots.DEFAULT_TIMEOUT_MS);
  }

  lemma ClockedStep(s0: System, front: seq<Move>, s: System, now: TimePoint, h: Hypot)
    requires s == Run(s0, front, h) && VoteTracked(s) && Clocked(s0, front, s.station, h)
    ensures Clocked(s0, front + [StationActs(Tick(now))], Step(s.station, now, h), h)
  {
    var n, m, tx := s.station, Step(s.station, now, h), s.proposer.activeTx;
    var tick := StationActs(Tick(now));
    Remembered(s0, front, tick, tx, now, h);
    if n.outcome.Some? {
      Remembered(s0, front, tick, n.outcome.value.tx, now, h);
    }
    if !NoRisingEdge(n) {
      Decision.AlarmDiscardsVote(n, now, h);
    } else if n.request.Some? {
      TakingUp(n, tx, now, h);
    } else if Decision.NoCollectorQueued(n) {
      Decision.QuietStep(n, now, h);
    } else {
      CollectorInFront(n, tx, true);
      var b := n.queue[0].task.ballot;
      Polling(n, tx, b, now, h);
      Remembered(s0, front, tick, b.tx, b.start, h);
    }
  }

  /** Every other move leaves the collector and the outcome alone. */
  lemma OtherMove(s: System, m: Move, h: Hypot)
    requires !StationTicks(m)
    ensures var n, n' := s.station, Apply(s, m, h).station;
            n'.outcome == n.outcome && (forall b :: Decision.Pends(n', b) ==> Decision.Pends(n, b))
  {
  }

  lemma ClockedMove(s0: System, front: seq<Move>, s: System, m: Move, h: Hypot)
    requires s == Run(s0, front, h) && VoteTracked(s) && Clocked(s0, front, s.station, h)
    ensures Clocked(s0, front + [m], Apply(s, m, h).station, h)
  {
    var n' := Apply(s, m, h).station;
    if StationTicks(m) {
      ClockedStep(s0, front, s, m.a.now, h);
    } else {
      OtherMove(s, m, h);
      forall b | Decision.Pends(n', b) ensures TakenUpAt(s0, front + [m], b.tx, b.start, h) {
        Remembered(s0, front, m, b.tx, b.start, h);
      }
      if n'.outcome.Some? {
        Remembered(s0, front, m, n'.outcome.value.tx, 0, h);
      }
    }
  }

  lemma {:induction false} ClockedOverRuns(s0: System, moves: seq<Move>, h: Hypot)
    requires Initial(s0) && Proposals(Run(s0, moves, h).history) < TWO_TO_THE_32
    ensures Clocked(s0, moves, Run(s0, moves, h).station, h)
    decreases |moves|
  {
    if moves != [] {
      var front, m := moves[..|moves| - 1], moves[|moves| - 1];
      assert moves == front + [m];
      var more := SwarmTheorems.HistoryGrows(Run(s0, front, h), m, h);
      SwarmTheorems.ProposalsGrow(Run(s0, front, h).history, more);
      ClockedOverRuns(s0, front, h);
      ReachableTracked(s0, front, h);
      ClockedMove(s0, front, Run(s0, front, h), m, h);
    }
  }

  // ---------------------------------------------------------------------
  //  The theorem
  // ---------------------------------------------------------------------

  /**
   No vote times out early.  In every reachable state: a timeout on record is that of a vote whose
   request a step of the station took up, and a later step came at least five seconds after that one.
   As long as no step comes that late, the vote ends by its votes or goes on.
   */
  lemma TimeoutsAreDue(s0: System, moves: seq<Move>, h: Hypot)
    requires Initial(s0) && Proposals(Run(s0, moves, h).history) < TWO_TO_THE_32
    ensures var outcome := Run(s0, moves, h).station.outcome;
            outcome.Some? && outcome.value.byTimeout ==> FiveSecondsPassed(s0, moves, outcome.value.tx, h)
  {
    ClockedOverRuns(s0, moves, h);
  }
}
