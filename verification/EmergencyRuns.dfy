/**
 When an emergency begins and when it is over, in every run of a node from its start: what the flag
 says after any number of steps, which step starts the emergency sequence, and what "a peer is lost"
 means in terms of the messages that arrived.
 */
module EmergencyRuns {
  import opened SwarmTypes
  import opened Motion
  import opened Tasks
  import opened Engine
  import opened CommandDrain
  import opened PeerTable
  import Emergency
  import QueueShape

  ghost predicate SomeoneOffline(peers: Peers) {
    exists id :: id in peers && peers[id].status == Offline
  }

  /** A battery below 15 or some known peer recorded as OFFLINE. */
  ghost predicate Endangered(n: Node) {
    n.flight.battery < 15 || SomeoneOffline(n.peers)
  }

  // ---------------------------------------------------------------------
  //  The flag
  // ---------------------------------------------------------------------

  lemma FlagAfterStep(n: Node, now: TimePoint, h: Hypot)
    ensures Step(n, now, h).inEmergency <==> Endangered(n)
  {
    Emergency.AlarmFlag(n, now, h);
    ApplyRequestFrame(n);
    assert CheckEmergency(ApplyRequest(n)) <==> Endangered(n);
  }

  /** The last step of the run found its node endangered. */
  ghost predicate LastStepEndangered(n: Node, actions: seq<Action>, h: Hypot)
    decreases |actions|
  {
    && actions != []
    && var front := actions[..|actions| - 1];
       if actions[|actions| - 1].Tick? then Endangered(Execute(n, front, h)) else LastStepEndangered(n, front, h)
  }

  /**
   The emergency flag.  At any moment of any run from the start it holds if and only if the last step
   found the battery below 15 or a known peer OFFLINE; without a step yet it does not hold.
   */
  lemma {:induction false} FlagOverRuns(config: SwarmConfig, battery: uint8, actions: seq<Action>, h: Hypot)
    ensures Execute(Boot(config, battery), actions, h).inEmergency
       <==> LastStepEndangered(Boot(config, battery), actions, h)
    decreases |actions|
  {
    if actions != [] {
      var front, a := actions[..|actions| - 1], actions[|actions| - 1];
      FlagOverRuns(config, battery, front, h);
      if a.Tick? {
        FlagAfterStep(Execute(Boot(config, battery), front, h), a.now, h);
      }
    }
  }

  // ---------------------------------------------------------------------
  //  Which step starts the sequence
  // ---------------------------------------------------------------------

  /** Among the instances numbered from `first` on there is no FailSafe. */
  ghost predicate NoNewFailSafe(queue: seq<Slot>, first: nat) {
    forall i | 0 <= i < |queue| && queue[i].id >= first :: !queue[i].task.FailSafe?
  }

  lemma PrepareAddsNoFailSafe(n: Node, now: TimePoint, first: nat)
    requires NoNewFailSafe(n.queue, first)
    ensures NoNewFailSafe(Prepare(n, now).queue, first)
  {
    var filled := Fill(n);
    assert NoNewFailSafe(filled.queue, first);
    EnterKeepsKind(filled.queue[0].task, now, filled.flight);
  }

  lemma {:induction false} DrainAddsNoFailSafe(n: Node, first: nat)
    requires NoNewFailSafe(n.queue, first)
    ensures NoNewFailSafe(Drain(n).0.queue, first)
    decreases |n.commands|
  {
    if n.commands != [] {
      var rest := n.(commands := n.commands[1..]);
      CommandAddsNoFailSafe(rest, n.commands[0], first);
      DrainAddsNoFailSafe(ProcessCommand(rest, n.commands[0]).0, first);
    }
  }

  lemma CommandAddsNoFailSafe(n: Node, c: Command, first: nat)
    requires NoNewFailSafe(n.queue, first)
    ensures NoNewFailSafe(ProcessCommand(n, c).0.queue, first)
  {
  }

  lemma RunFrontAddsNoFailSafe(n: Node, now: TimePoint, first: nat, h: Hypot)
    requires n.queue != [] && NoNewFailSafe(n.queue, first)
    ensures NoNewFailSafe(RunFront(n, now, h).queue, first)
  {
    var (t, f) := RunTask(n.queue[0].task, now, n.flight, h);
    RunKeepsKind(n.queue[0].task, now, n.flight, h);
    var ran := Advanced(n, t, f);
    assert NoNewFailSafe(ran.queue, first);
    if IsFinished(t) {
      var exited := ExitFront(RecordOutcome(ran, t));
      assert NoNewFailSafe(exited.queue, first);
      if !Aborts(t) && exited.queue != [] {
        EnterKeepsKind(exited.queue[0].task, now, exited.flight);
      }
    }
  }

  lemma QuietStepAddsNoFailSafe(n: Node, now: TimePoint, h: Hypot)
    requires NoRisingEdge(n) && NoNewFailSafe(n.queue, n.nextId)
    ensures NoNewFailSafe(Step(n, now, h).queue, n.nextId)
  {
    var first := n.nextId;
    ApplyRequestFrame(n);
    assert NoNewFailSafe(HandleEmergency(ApplyRequest(n)).queue, first);
    PrepareAddsNoFailSafe(HandleEmergency(ApplyRequest(n)), now, first);
    DrainAddsNoFailSafe(Settle(n, now), first);
    PrepareAddsNoFailSafe(Drain(Settle(n, now)).0, now, first);
    RunFrontAddsNoFailSafe(Ready(n, now), now, first, h);
  }

  /** The queue begins with a FailSafe of one second, entered at `now`, that did not exist before, and a Landing. */
  ghost predicate BeginsSequence(n: Node, m: Node, now: TimePoint) {
    && |m.queue| >= 2 && m.queue[0].id >= n.nextId
    && m.queue[0].task == FailSafe(Assessment(1000, now, false)) && m.started
    && m.queue[1].task.Landing?
  }

  lemma AlarmBegins(n: Node, now: TimePoint, h: Hypot)
    requires DroneAtRest(n) && Endangered(n) && !n.inEmergency && n.flight.z >= 0.0
    ensures BeginsSequence(n, Step(n, now, h), now) && Step(n, now, h).flight.Still()
  {
    assert CheckEmergency(n);
    Emergency.AlarmStep(n, now, h);
    Emergency.SettleOnAlarm(n, now);
    ReadyKeepsFront(n, now);
    FrontNumber(Ready(n, now), now, h);
  }

  lemma FrontNumber(n: Node, now: TimePoint, h: Hypot)
    requires n.queue != [] && n.queue[0].task.FailSafe?
    ensures var m := RunFront(n, now, h);
            m.queue != [] && m.queue[0].task.FailSafe? ==>
              m.queue[0].id == n.queue[0].id || (|n.queue| > 1 && n.queue[1].task.FailSafe?)
  {
  }

  /**
   The beginning of an emergency.  In every reachable state of a drone, a step starts the emergency
   sequence (a FailSafe that did not exist before is in front, entered now, with a Landing behind it)
   if and only if the drone was not in an emergency and its battery is below 15 or a known peer is
   OFFLINE; and no other step creates a FailSafe anywhere in the queue.
   */
  lemma SequenceBeginsIff(config: SwarmConfig, battery: uint8, actions: seq<Action>, now: TimePoint, h: Hypot)
    requires config.nodeType == DroneNode && QueueShape.OperationalRun(config, actions)
    ensures var n := Execute(Boot(config, battery), actions, h);
            var m := Step(n, now, h);
            && (BeginsSequence(n, m, now) <==> !n.inEmergency && Endangered(n))
            && (!NoNewFailSafe(m.queue, n.nextId) <==> !n.inEmergency && Endangered(n))
  {
    var n := Execute(Boot(config, battery), actions, h);
    QueueShape.QueueShapeOverRuns(config, battery, actions, h);
    Emergency.AlwaysGrounded(config, battery, actions, h);
    if !n.inEmergency && Endangered(n) {
      AlarmBegins(n, now, h);
    } else {
      QuietStepAddsNoFailSafe(n, now, h);
    }
  }

  /**
   The sequence outlives its cause: when the danger has passed before the assessment is over, a step
   clears the flag and leaves the FailSafe in front.
   */
  lemma SequenceOutlivesDanger(n: Node, start: TimePoint, now: TimePoint, h: Hypot)
    requires DroneAtRest(n) && !Endangered(n) && n.flight.z >= 0.0
    requires n.queue != [] && n.queue[0].task == FailSafe(Assessment(1000, start, false))
    requires now < start + 1_000_000_000
    ensures var m := Step(n, now, h);
            !m.inEmergency && m.queue != [] && m.queue[0].task == n.queue[0].task
  {
    FlagAfterStep(n, now, h);
    SettleUndisturbed(n, now);
    ReadyKeepsFront(n, now);
    QueueShape.StepAtRest(n, now, h);
    MillisReached(now - start, 1000);
    Emergency.RunFailSafe(Ready(n, now), now, h);
  }

  // ---------------------------------------------------------------------
  //  What the node knows: its battery and its peers, from what arrived
  // ---------------------------------------------------------------------

  /** The battery of the last change, or the one it started with. */
  function LastLevel(battery: uint8, actions: seq<Action>): uint8
    decreases |actions|
  {
    if actions == [] then battery
    else
      var a := actions[|actions| - 1];
      if a.SetBattery? then a.level else LastLevel(battery, actions[..|actions| - 1])
  }

  /** What one action tells the peer table of node `own`: its own messages count for nothing. */
  function Told(a: Action, own: uint8): seq<PeerEvent> {
    match a
    case HeartbeatArrives(hb, now) => if hb.droneId == own then [] else [HeartbeatAt(hb, now)]
    case TelemetryArrives(t, now) => if t.droneId == own then [] else [TelemetryAt(t, now)]
    case RefreshPeers(now) => [RefreshAt(now)]
    case _ => []
  }

  function PeerEventsOf(actions: seq<Action>, own: uint8): seq<PeerEvent>
    decreases |actions|
  {
    if actions == [] then []
    else PeerEventsOf(actions[..|actions| - 1], own) + Told(actions[|actions| - 1], own)
  }

  lemma ActTells(n: Node, a: Action, events: seq<PeerEvent>, h: Hypot)
    requires n.peers == Replay(events, 3000)
    ensures var m := Act(n, a, h);
            && m.peers == Replay(events + Told(a, n.config.droneId), 3000)
            && m.flight.battery == (if a.SetBattery? then a.level else n.flight.battery)
            && m.config == n.config
  {
    var told := Told(a, n.config.droneId);
    if told == [] {
      assert events + told == events;
    } else {
      ReplaySnoc(events, told[0]);
    }
    if a.Tick? {
      StepFrame(n, a.now, h);
    }
  }

  lemma ReplaySnoc(events: seq<PeerEvent>, e: PeerEvent)
    ensures Replay(events + [e], 3000) == Handle(Replay(events, 3000), e, 3000)
  {
    assert (events + [e])[..|events|] == events;
  }

  /**
   In every run of a node from its start, steps and tasks have no part in what it knows of the others:
   its peer table is that of the messages of other nodes that arrived, with the timeout of 3000 ms, and
   its battery is the last level reported.
   */
  lemma {:induction false} NodeTableIsReplay(config: SwarmConfig, battery: uint8, actions: seq<Action>, h: Hypot)
    ensures var n := Execute(Boot(config, battery), actions, h);
            && n.peers == Replay(PeerEventsOf(actions, config.droneId), 3000)
            && n.flight.battery == LastLevel(battery, actions)
            && n.config == config
    decreases |actions|
  {
    if actions != [] {
      var front, a := actions[..|actions| - 1], actions[|actions| - 1];
      NodeTableIsReplay(config, battery, front, h);
      ActTells(Execute(Boot(config, battery), front, h), a, PeerEventsOf(front, config.droneId), h);
    }
  }

  /** A node that sent a heartbeat gave its last proof of life 3 s or more before `now`. */
  ghost predicate Silent(events: seq<PeerEvent>, id: uint8, now: TimePoint) {
    && (exists i :: 0 <= i < |events| && HeartbeatOf(events[i], id))
    && LastSign(events, id, 3000).Some? && now - LastSign(events, id, 3000).value >= 3_000_000_000
  }

  ghost predicate SomeoneSilent(events: seq<PeerEvent>, now: TimePoint) {
    exists id: uint8 :: Silent(events, id, now)
  }

  lemma SilentIsOffline(events: seq<PeerEvent>, now: TimePoint)
    requires Chronological(events + [RefreshAt(now)])
    ensures SomeoneOffline(Replay(events + [RefreshAt(now)], 3000)) <==> SomeoneSilent(events, now)
  {
    var peers := Replay(events + [RefreshAt(now)], 3000);
    forall id: uint8 ensures id in peers && peers[id].status == Offline <==> Silent(events, id, now) {
      OnlineMeansRecentlyHeard(events, now, id, 3000);
    }
    if SomeoneSilent(events, now) {
      var id: uint8 :| Silent(events, id, now);
      assert id in peers && peers[id].status == Offline;
    }
  }

  /**
   What starts an emergency, from the messages.  In every reachable state of a drone, a step right after
   a refresh at t begins the emergency sequence if and only if the last step had found no danger and
   now the last battery report is below 15 or some other node that sent a heartbeat has given no
   proof of life for 3 s.
   */
  lemma SilenceBeginsSequence(config: SwarmConfig, battery: uint8, earlier: seq<Action>, t: TimePoint, now: TimePoint,
                              h: Hypot)
    requires config.nodeType == DroneNode && QueueShape.OperationalRun(config, earlier)
    requires Chronological(PeerEventsOf(earlier, config.droneId) + [RefreshAt(t)])
    ensures var n := Execute(Boot(config, battery), earlier + [RefreshPeers(t)], h);
            (BeginsSequence(n, Step(n, now, h), now)
             <==> (&& !LastStepEndangered(Boot(config, battery), earlier, h)
                   && (LastLevel(battery, earlier) < 15 || SomeoneSilent(PeerEventsOf(earlier, config.droneId), t))))
  {
    var actions := earlier + [RefreshPeers(t)];
    var n := Execute(Boot(config, battery), actions, h);
    RefreshAtEnd(config, battery, earlier, t, h);
    SequenceBeginsIff(config, battery, actions, now, h);
    FlagOverRuns(config, battery, actions, h);
    NodeTableIsReplay(config, battery, actions, h);
    SilentIsOffline(PeerEventsOf(earlier, config.droneId), t);
  }

  lemma RefreshAtEnd(config: SwarmConfig, battery: uint8, earlier: seq<Action>, t: TimePoint, h: Hypot)
    requires QueueShape.OperationalRun(config, earlier)
    ensures var actions := earlier + [RefreshPeers(t)];
            && QueueShape.OperationalRun(config, actions)
            && LastStepEndangered(Boot(config, battery), actions, h)
               == LastStepEndangered(Boot(config, battery), earlier, h)
            && LastLevel(battery, actions) == LastLevel(battery, earlier)
            && PeerEventsOf(actions, config.droneId) == PeerEventsOf(earlier, config.droneId) + [RefreshAt(t)]
  {
    var actions := earlier + [RefreshPeers(t)];
    assert actions[..|earlier|] == earlier;
  }
}
