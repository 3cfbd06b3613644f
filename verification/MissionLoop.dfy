/**
 The ground station's fixed programme of missions: the driver that proposes them one after the
 other, on its own and as the source of the controller's moves in the whole system.
 */
module MissionLoop {
  import opened SwarmTypes
  import opened Motion
  import opened Engine
  import opened Controller
  import Swarm
  import SwarmTheorems
  import PeerTable
  import Tasks

  const MISSIONS: seq<Target> := [Target(Scout, 80.0, 40.0), Target(Striker, 150.0, -60.0)]
  const DISCOVERY_NS: int := 8_000_000_000
  const PAUSE_NS: int := 5_000_000_000

  /** A history variable of the loop: what it did, and when. */
  datatype LoopEvent =
    | Offered(tx: uint32, target: Target, at: TimePoint)
    | Settled(tx: uint32, committed: bool, at: TimePoint)

  datatype Loop = Loop(
    proposer: Proposer,
    nextTask: nat,
    proposalPending: bool,
    nextProposalTime: TimePoint,
    log: seq<LoopEvent>)

  function Start(): Loop {
    Loop(New(), 0, true, 0, [])
  }

  /** The next mission may be offered: discovery, from the loop's start at `began`, and the pause are over. */
  predicate Due(l: Loop, began: TimePoint, now: TimePoint) {
    l.proposalPending && l.nextTask < |MISSIONS| && now >= began + DISCOVERY_NS && now >= l.nextProposalTime
  }

  function Offer(l: Loop, now: TimePoint): Loop
    requires l.nextTask < |MISSIONS|
  {
    var t := MISSIONS[l.nextTask];
    l.(proposer := Propose(l.proposer, t.role, t.x, t.y), proposalPending := false,
       log := l.log + [Offered(l.proposer.nextTx, t, now)])
  }

  function OfferIfDue(l: Loop, began: TimePoint, now: TimePoint): Loop {
    if Due(l, began, now) then Offer(l, now) else l
  }

  /** The controller's step, and the reaction to a result. */
  function CheckResult(l: Loop, now: TimePoint, outcome: Option<VoteOutcome>): Loop {
    var c := StepController(l.proposer, outcome).0;
    if c.state == TaskPublished || c.state == Cancelled then
      Loop(ConsumeResult(c), l.nextTask + 1, true, now + PAUSE_NS,
           l.log + [Settled(c.activeTx, c.state == TaskPublished, now)])
    else l.(proposer := c)
  }

  /** One iteration; the recorded outcome is read in the middle of it. */
  function Iterate(l: Loop, began: TimePoint, now: TimePoint, outcome: Option<VoteOutcome>): Loop {
    CheckResult(OfferIfDue(l, began, now), now, outcome)
  }

  /** The proposal an iteration publishes. */
  function Announced(l: Loop, began: TimePoint, now: TimePoint, stationId: uint8): seq<ConsensusMessage> {
    if Due(l, began, now) then [ProposalMessage(l.proposer, stationId)] else []
  }

  /** The request an iteration leaves for the station's Task Engine. */
  function Posted(l: Loop, began: TimePoint, now: TimePoint, n: Node): Node {
    if Due(l, began, now) then n.(request := Some(Request(l.proposer.nextTx, PeerTable.OnlineDroneIds(n.peers)))) else n
  }

  /** The order an iteration publishes. */
  function Dispatched(l: Loop, began: TimePoint, now: TimePoint, outcome: Option<VoteOutcome>): seq<TaskOrder> {
    var published := StepController(OfferIfDue(l, began, now).proposer, outcome).1;
    if published.Some? then [published.value] else []
  }

  // ---------------------------------------------------------------------
  //  Whatever outcomes the loop reads
  // ---------------------------------------------------------------------

  /** Entry k of the log: mission k/2 is offered under number k/2 + 1, then that number is settled. */
  ghost predicate Entry(e: LoopEvent, k: nat) {
    if k % 2 == 0 then e.Offered? && k / 2 < 2 && e.tx == k / 2 + 1 && e.target == MissionTarget(k / 2)
    else e.Settled? && e.tx == k / 2 + 1
  }

  /** An offer waits for eight seconds of discovery, and for the pause after the previous result. */
  ghost predicate Paced(log: seq<LoopEvent>, began: TimePoint) {
    && (forall k | 0 <= k < |log| && log[k].Offered? :: log[k].at >= began + 8_000_000_000)
    && (forall k | 0 < k < |log| && log[k].Offered? :: log[k].at >= log[k - 1].at + 5_000_000_000)
  }

  /** At most one proposal is outstanding, and the controller is voting exactly while one is. */
  ghost predicate OnProgramme(l: Loop, began: TimePoint) {
    && (forall k | 0 <= k < |l.log| :: Entry(l.log[k], k))
    && Paced(l.log, began)
    && |l.log| == 2 * l.nextTask + (if l.proposalPending then 0 else 1)
    && l.nextTask <= 2 && (l.nextTask == 2 ==> l.proposalPending)
    && (l.log != [] && l.proposalPending ==> l.nextProposalTime == l.log[|l.log| - 1].at + 5_000_000_000)
    && l.proposer.nextTx == l.nextTask + (if l.proposalPending then 1 else 2)
    && (l.proposer.state == VotingState <==> !l.proposalPending)
    && (l.proposalPending ==> l.proposer.state == Resting && l.proposer.activeTx == l.nextTask)
    && (!l.proposalPending ==>
          l.proposer.activeTx == l.nextTask + 1 && l.proposer.pendingOrder == MissionOrder(l.nextTask))
  }

  /** A scout searches at (80, 40), then a striker goes to (150, -60). */
  function MissionTarget(i: nat): Target
    requires i < 2
  {
    if i == 0 then Target(Scout, 80.0, 40.0) else Target(Striker, 150.0, -60.0)
  }

  function MissionOrder(i: nat): TaskOrder
    requires i < 2
  {
    var t := MissionTarget(i);
    TaskOrder(i + 1, t.role, t.x, t.y)
  }

  lemma OfferOnProgramme(l: Loop, began: TimePoint, now: TimePoint)
    requires OnProgramme(l, began)
    ensures OnProgramme(OfferIfDue(l, began, now), began)
  {
  }

  lemma CheckOnProgramme(l: Loop, began: TimePoint, now: TimePoint, outcome: Option<VoteOutcome>)
    requires OnProgramme(l, began)
    ensures OnProgramme(CheckResult(l, now, outcome), began)
  {
  }

  // ---------------------------------------------------------------------
  //  The loop inside the system
  // ---------------------------------------------------------------------

  /** One iteration: what else happens before it, and between its proposal and its look at the outcome. */
  datatype Turn = Turn(now: TimePoint, before: seq<Swarm.Move>, between: seq<Swarm.Move>)

  predicate Fair(t: Turn) {
    && (forall i | 0 <= i < |t.before| :: Swarm.Environmental(t.before[i]))
    && (forall i | 0 <= i < |t.between| :: Swarm.Environmental(t.between[i]))
  }

  ghost predicate AllFair(turns: seq<Turn>) {
    forall i | 0 <= i < |turns| :: Fair(turns[i])
  }

  function OfferMoves(l: Loop, began: TimePoint, now: TimePoint): seq<Swarm.Move> {
    if Due(l, began, now) then
      var t := MISSIONS[l.nextTask];
      [Swarm.ProposeTask(t.role, t.x, t.y)]
    else []
  }

  function ResultMoves(): seq<Swarm.Move> {
    [Swarm.ControllerSteps, Swarm.ResultConsumed]
  }

  /** The moves of a run of the system whose controller is driven by the loop, and the loop's state. */
  function Drive(s: Swarm.System, began: TimePoint, turns: seq<Turn>, h: Hypot): (seq<Swarm.Move>, Loop)
    decreases |turns|
  {
    if turns == [] then ([], Start())
    else
      var (moves, l) := Drive(s, began, turns[..|turns| - 1], h);
      var t := turns[|turns| - 1];
      var looked := moves + t.before + OfferMoves(l, began, t.now) + t.between;
      (looked + ResultMoves(), Iterate(l, began, t.now, Swarm.Run(s, looked, h).station.outcome))
  }

  lemma LastTurnSplits(turns: seq<Turn>)
    requires turns != []
    ensures turns == turns[..|turns| - 1] + [turns[|turns| - 1]]
  {
  }

  lemma DriveSnoc(s: Swarm.System, began: TimePoint, turns: seq<Turn>, t: Turn, h: Hypot)
    ensures var (moves, l) := Drive(s, began, turns, h);
            var looked := moves + t.before + OfferMoves(l, began, t.now) + t.between;
            Drive(s, began, turns + [t], h)
            == (looked + ResultMoves(), Iterate(l, began, t.now, Swarm.Run(s, looked, h).station.outcome))
  {
    assert (turns + [t])[..|turns|] == turns;
  }

  lemma {:induction false} RunAppends(s: Swarm.System, a: seq<Swarm.Move>, b: seq<Swarm.Move>, h: Hypot)
    ensures Swarm.Run(Swarm.Run(s, a, h), b, h) == Swarm.Run(s, a + b, h)
    decreases |b|
  {
    if b == [] {
      assert a + b == a;
    } else {
      RunAppends(s, a, b[..|b| - 1], h);
      assert (a + b)[..|a + b| - 1] == a + b[..|b| - 1];
    }
  }

  // ---------------------------------------------------------------------
  //  The controller's events in the history are the loop's log
  // ---------------------------------------------------------------------

  predicate ByController(e: Swarm.Event) {
    e.Proposed? || e.Ordered? || e.Withdrawn?
  }

  function Programme(hist: seq<Swarm.Event>): seq<Swarm.Event>
    decreases |hist|
  {
    if hist == [] then []
    else Programme(hist[..|hist| - 1]) + (if ByController(hist[|hist| - 1]) then [hist[|hist| - 1]] else [])
  }

  ghost predicate Shows(e: Swarm.Event, entry: LoopEvent) {
    match entry
    case Offered(tx, t, _) => e.Proposed? && e.message.tx == tx && e.role == t.role && e.x == t.x && e.y == t.y
    case Settled(tx, true, _) => e.Ordered? && 1 <= tx <= 2 && e.order == MissionOrder(tx - 1)
    case Settled(tx, false, _) => e.Withdrawn? && e.tx == tx
  }

  ghost predicate Mirrors(hist: seq<Swarm.Event>, log: seq<LoopEvent>) {
    && |Programme(hist)| == |log|
    && (forall k | 0 <= k < |log| :: Shows(Programme(hist)[k], log[k]))
    && Swarm.Proposals(hist) == (|log| + 1) / 2
  }

  ghost predicate InStep(s: Swarm.System, l: Loop, began: TimePoint) {
    s.proposer == l.proposer && Mirrors(s.history, l.log) && OnProgramme(l, began)
  }

  lemma {:induction false} ProgrammeUnchanged(hist: seq<Swarm.Event>, more: seq<Swarm.Event>)
    requires SwarmTheorems.Neutral(more)
    ensures Programme(hist + more) == Programme(hist)
    decreases |more|
  {
    if more == [] {
      assert hist + more == hist;
    } else {
      ProgrammeUnchanged(hist, more[..|more| - 1]);
      assert (hist + more)[..|hist + more| - 1] == hist + more[..|more| - 1];
    }
  }

  lemma MirrorsNext(hist: seq<Swarm.Event>, log: seq<LoopEvent>, e: Swarm.Event, entry: LoopEvent)
    requires Mirrors(hist, log) && ByController(e) && Shows(e, entry)
    requires entry.Offered? <==> |log| % 2 == 0
    ensures Mirrors(hist + [e], log + [entry])
  {
    assert (hist + [e])[..|hist + [e]| - 1] == hist;
  }

  lemma {:induction false} EnvironmentInStep(s: Swarm.System, l: Loop, began: TimePoint, moves: seq<Swarm.Move>,
                                             h: Hypot)
    requires InStep(s, l, began)
    requires forall i | 0 <= i < |moves| :: Swarm.Environmental(moves[i])
    ensures InStep(Swarm.Run(s, moves, h), l, began)
    decreases |moves|
  {
    if moves != [] {
      var before := Swarm.Run(s, moves[..|moves| - 1], h);
      EnvironmentInStep(s, l, began, moves[..|moves| - 1], h);
      var more := SwarmTheorems.HistoryGrows(before, moves[|moves| - 1], h);
      ProgrammeUnchanged(before.history, more);
      SwarmTheorems.ProposalsUnchanged(before.history, more);
    }
  }

  lemma RunOne(s: Swarm.System, m: Swarm.Move, h: Hypot)
    ensures Swarm.Run(s, [m], h) == Swarm.Apply(s, m, h)
  {
    assert [m][..0] == [];
    assert Swarm.Run(s, [], h) == s;
  }

  lemma RunTwo(s: Swarm.System, first: Swarm.Move, second: Swarm.Move, h: Hypot)
    ensures Swarm.Run(s, [first, second], h) == Swarm.Apply(Swarm.Apply(s, first, h), second, h)
  {
    RunOne(s, first, h);
    assert [first, second][..1] == [first];
  }

  lemma RunProposal(s: Swarm.System, role: DroneRole, x: real, y: real, h: Hypot)
    ensures Swarm.Run(s, [Swarm.ProposeTask(role, x, y)], h) == Swarm.Propose(s, role, x, y)
  {
    RunOne(s, Swarm.ProposeTask(role, x, y), h);
  }

  lemma OfferInStep(s: Swarm.System, l: Loop, began: TimePoint, now: TimePoint, h: Hypot)
    requires InStep(s, l, began)
    ensures InStep(Swarm.Run(s, OfferMoves(l, began, now), h), OfferIfDue(l, began, now), began)
  {
    OfferOnProgramme(l, began, now);
    if Due(l, began, now) {
      var t := MISSIONS[l.nextTask];
      RunOne(s, Swarm.ProposeTask(t.role, t.x, t.y), h);
      var e := Swarm.Propose(s, t.role, t.x, t.y).history[|s.history|];
      MirrorsNext(s.history, l.log, e, Offered(l.proposer.nextTx, t, now));
    }
  }

  /** What the controller's step and the loop's reaction to it make of the system. */
  function AfterResult(s: Swarm.System): Swarm.System {
    var (c, published) := StepController(s.proposer, s.station.outcome);
    s.(proposer := ConsumeResult(c), history := s.history + Swarm.Decided(s.proposer, c, published))
  }

  lemma ResultMovesRun(s: Swarm.System, h: Hypot)
    ensures Swarm.Run(s, ResultMoves(), h) == AfterResult(s)
  {
    RunTwo(s, Swarm.ControllerSteps, Swarm.ResultConsumed, h);
  }

  lemma AfterResultInStep(s: Swarm.System, l: Loop, began: TimePoint, now: TimePoint)
    requires InStep(s, l, began)
    ensures InStep(AfterResult(s), CheckResult(l, now, s.station.outcome), began)
  {
    var outcome := s.station.outcome;
    CheckOnProgramme(l, began, now, outcome);
    SwarmTheorems.ControllerCases(l.proposer, outcome);
    var (c, published) := StepController(l.proposer, outcome);
    var more := Swarm.Decided(l.proposer, c, published);
    if more == [] {
      assert s.history + more == s.history;
    } else {
      MirrorsNext(s.history, l.log, more[0], Settled(c.activeTx, c.state == TaskPublished, now));
    }
  }

  lemma ResultInStep(s: Swarm.System, l: Loop, began: TimePoint, now: TimePoint, h: Hypot)
    requires InStep(s, l, began)
    ensures InStep(Swarm.Run(s, ResultMoves(), h), CheckResult(l, now, s.station.outcome), began)
  {
    ResultMovesRun(s, h);
    AfterResultInStep(s, l, began, now);
  }

  /** The messages of the proposals among the events, and the orders. */
  function ProposalsIn(events: seq<Swarm.Event>): seq<ConsensusMessage> {
    if events == [] then []
    else (if events[0].Proposed? then [events[0].message] else []) + ProposalsIn(events[1..])
  }

  function OrdersIn(events: seq<Swarm.Event>): seq<TaskOrder> {
    if events == [] then []
    else (if events[0].Ordered? then [events[0].order] else []) + OrdersIn(events[1..])
  }

  /**
   What an iteration sends is what its moves put on the network of the system: the announced proposals
   and the posted request by its first move, the dispatched orders by its last two.
   */
  lemma IterationSends(s: Swarm.System, between: Swarm.System, l: Loop, began: TimePoint, now: TimePoint, h: Hypot)
    requires InStep(s, l, began) && between.proposer == OfferIfDue(l, began, now).proposer
    ensures var offered := Swarm.Run(s, OfferMoves(l, began, now), h);
            && offered.station == Posted(l, began, now, s.station)
            && s.history <= offered.history
            && ProposalsIn(offered.history[|s.history|..]) == Announced(l, began, now, s.station.config.droneId)
            && OrdersIn(offered.history[|s.history|..]) == []
    ensures var settled := Swarm.Run(between, ResultMoves(), h);
            && settled.station == between.station && between.history <= settled.history
            && OrdersIn(settled.history[|between.history|..]) == Dispatched(l, began, now, between.station.outcome)
            && ProposalsIn(settled.history[|between.history|..]) == []
  {
    ResultMovesRun(between, h);
    var (c, published) := StepController(between.proposer, between.station.outcome);
    var more := Swarm.Decided(between.proposer, c, published);
    assert (between.history + more)[|between.history|..] == more;
    if more != [] {
      assert more[1..] == [];
    }
    if Due(l, began, now) {
      var t := MISSIONS[l.nextTask];
      RunProposal(s, t.role, t.x, t.y, h);
      var offered := Swarm.Propose(s, t.role, t.x, t.y).history;
      assert offered[|s.history|..] == [offered[|s.history|]];
      assert [offered[|s.history|]][1..] == [];
    } else {
      assert Swarm.Run(s, [], h) == s;
    }
  }

  lemma InitialInStep(s: Swarm.System, began: TimePoint)
    requires Swarm.Initial(s)
    ensures InStep(s, Start(), began)
  {
  }

  /**
   However the rest of the system behaves, the history of a driven system holds exactly what the
   loop logged: mission i offered under number i + 1, then that number ordered with the mission's
   role and coordinates or withdrawn, then mission i + 1.
   */
  lemma {:induction false} DrivenInStep(s: Swarm.System, began: TimePoint, turns: seq<Turn>, h: Hypot)
    requires Swarm.Initial(s) && AllFair(turns)
    ensures var (moves, l) := Drive(s, began, turns, h); InStep(Swarm.Run(s, moves, h), l, began)
    decreases |turns|
  {
    if turns == [] {
      InitialInStep(s, began);
    } else {
      DrivenInStep(s, began, turns[..|turns| - 1], h);
      var (moves, l) := Drive(s, began, turns[..|turns| - 1], h);
      TurnInStep(s, l, began, moves, turns[|turns| - 1], h);
    }
  }

  lemma TurnInStep(s: Swarm.System, l: Loop, began: TimePoint, moves: seq<Swarm.Move>, t: Turn, h: Hypot)
    requires InStep(Swarm.Run(s, moves, h), l, began) && Fair(t)
    ensures var looked := moves + t.before + OfferMoves(l, began, t.now) + t.between;
            InStep(Swarm.Run(s, looked + ResultMoves(), h),
                   Iterate(l, began, t.now, Swarm.Run(s, looked, h).station.outcome), began)
  {
    var offer := OfferMoves(l, began, t.now);
    EnvironmentInStep(Swarm.Run(s, moves, h), l, began, t.before, h);
    RunAppends(s, moves, t.before, h);
    OfferInStep(Swarm.Run(s, moves + t.before, h), l, began, t.now, h);
    RunAppends(s, moves + t.before, offer, h);
    var offered := OfferIfDue(l, began, t.now);
    EnvironmentInStep(Swarm.Run(s, moves + t.before + offer, h), offered, began, t.between, h);
    RunAppends(s, moves + t.before + offer, t.between, h);
    var looked := moves + t.before + offer + t.between;
    ResultInStep(Swarm.Run(s, looked, h), offered, began, t.now, h);
    RunAppends(s, looked, ResultMoves(), h);
  }

  // ---------------------------------------------------------------------
  //  Commit safety without a bound on the proposals
  // ---------------------------------------------------------------------

  lemma {:induction false} HistoryOnlyGrows(s: Swarm.System, a: seq<Swarm.Move>, b: seq<Swarm.Move>, h: Hypot)
    ensures Swarm.Run(s, a, h).history <= Swarm.Run(s, a + b, h).history
    ensures Swarm.Proposals(Swarm.Run(s, a, h).history) <= Swarm.Proposals(Swarm.Run(s, a + b, h).history)
    decreases |b|
  {
    if b == [] {
      assert a + b == a;
    } else {
      var front := b[..|b| - 1];
      HistoryOnlyGrows(s, a, front, h);
      assert (a + b)[..|a + b| - 1] == a + front;
      var before := Swarm.Run(s, a + front, h);
      var more := SwarmTheorems.HistoryGrows(before, b[|b| - 1], h);
      SwarmTheorems.ProposalsGrow(before.history, more);
    }
  }

  lemma {:induction false} ProgrammeHolds(hist: seq<Swarm.Event>, k: nat)
    requires k < |hist| && ByController(hist[k])
    ensures hist[k] in Programme(hist)
    decreases |hist|
  {
    if k < |hist| - 1 {
      ProgrammeHolds(hist[..|hist| - 1], k);
    }
  }

  lemma OrdersAreMissions(s: Swarm.System, l: Loop, began: TimePoint, k: nat)
    requires InStep(s, l, began) && k < |s.history| && s.history[k].Ordered?
    ensures exists i: nat :: i < 2 && s.history[k].order == MissionOrder(i)
  {
    ProgrammeHolds(s.history, k);
    var p :| 0 <= p < |l.log| && Programme(s.history)[p] == s.history[k];
    assert Shows(s.history[k], l.log[p]) && l.log[p].Settled?;
    assert s.history[k].order == MissionOrder(l.log[p].tx - 1);
  }

  /** The mission of the programme a task carries out. */
  ghost predicate OfProgramme(t: Tasks.Task, role: DroneRole) {
    exists i: nat :: i < 2 && MissionTarget(i).role == role && Tasks.Fulfils(t, MissionOrder(i))
  }

  /**
   Commit safety of the system as it is deployed.  Under the mission loop, at every moment of every
   run, a drone's queue holds only missions of the programme for its own role, each sanctioned by a
   unanimous vote; no bound on the number of proposals is needed.
   */
  lemma DrivenCommitSafety(s0: Swarm.System, began: TimePoint, turns: seq<Turn>, h: Hypot, j: nat, id: uint8, q: nat)
    requires Swarm.Initial(s0) && AllFair(turns)
    requires j <= |Drive(s0, began, turns, h).0|
    requires var s := Swarm.Run(s0, Drive(s0, began, turns, h).0[..j], h);
             id in s.drones && q < |s.drones[id].queue|
    ensures var s := Swarm.Run(s0, Drive(s0, began, turns, h).0[..j], h);
            var n := s.drones[id];
            Tasks.IsMission(n.queue[q].task) ==>
              && SwarmTheorems.Sanctioned(s.history, n.queue[q].task, n.config.role)
              && OfProgramme(n.queue[q].task, n.config.role)
  {
    var (moves, l) := Drive(s0, began, turns, h);
    var now, end := Swarm.Run(s0, moves[..j], h), Swarm.Run(s0, moves, h);
    DrivenInStep(s0, began, turns, h);
    assert moves == moves[..j] + moves[j..];
    HistoryOnlyGrows(s0, moves[..j], moves[j..], h);
    SwarmTheorems.CommitSafety(s0, moves[..j], h);
    var n := now.drones[id];
    var t := n.queue[q].task;
    if Tasks.IsMission(t) {
      var k, p, c :| SwarmTheorems.Authorised(now.history, k, p, c) && now.history[k].order.role == n.config.role
                     && Tasks.Fulfils(t, now.history[k].order);
      assert end.history[k] == now.history[k];
      OrdersAreMissions(end, l, began, k);
    }
  }
}
