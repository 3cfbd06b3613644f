/** Who is asked to vote: the peer table of every reachable node, and the voter list of every proposal. */
module Snapshots {
  import opened SwarmTypes
  import opened Motion
  import opened PeerTable
  import opened Engine
  import opened Swarm
  import SwarmTheorems

  lemma ActKeepsKeys(n: Node, a: Action, h: Hypot)
    requires Keyed(n.peers)
    ensures Keyed(Act(n, a, h).peers)
  {
    match a
    case Tick(now) => StepFrame(n, now, h);
    case HeartbeatArrives(hb, now) => OperationsKeepKeys(n.peers, hb, Telemetry(0, 0), now, HEARTBEAT_TIMEOUT_MS);
    case TelemetryArrives(t, now) =>
      OperationsKeepKeys(n.peers, Heartbeat(0, DroneNode, Scout, InitType), t, now, HEARTBEAT_TIMEOUT_MS);
    case RefreshPeers(now) =>
      OperationsKeepKeys(n.peers, Heartbeat(0, DroneNode, Scout, InitType), Telemetry(0, 0), now, HEARTBEAT_TIMEOUT_MS);
    case _ =>
  }

  /** In every run of a node each record of its peer table carries its own key. */
  lemma {:induction false} KeyedOverRuns(config: SwarmConfig, battery: uint8, actions: seq<Action>, h: Hypot)
    ensures Keyed(Execute(Boot(config, battery), actions, h).peers)
    decreases |actions|
  {
    if actions != [] {
      var front, a := actions[..|actions| - 1], actions[|actions| - 1];
      KeyedOverRuns(config, battery, front, h);
      ActKeepsKeys(Execute(Boot(config, battery), front, h), a, h);
    }
  }

  lemma MoveKeepsKeys(s: System, m: Move, h: Hypot)
    requires Keyed(s.station.peers)
    ensures Keyed(Apply(s, m, h).station.peers)
  {
    if Enabled(s, m) {
      match m
      case StationActs(a) => ActKeepsKeys(s.station, a, h);
      case _ =>
    }
  }

  lemma {:induction false} StationKeyed(s0: System, moves: seq<Move>, h: Hypot)
    requires Initial(s0)
    ensures Keyed(Run(s0, moves, h).station.peers)
    decreases |moves|
  {
    if moves != [] {
      StationKeyed(s0, moves[..|moves| - 1], h);
      MoveKeepsKeys(Run(s0, moves[..|moves| - 1], h), moves[|moves| - 1], h);
    }
  }

  /** The list names exactly the ONLINE drones of the table, each once, in increasing order. */
  ghost predicate AsksOnlineDrones(voters: seq<uint8>, peers: Peers) {
    && (forall id: uint8 ::
          id in voters <==> id in peers && peers[id].status == Online && peers[id].info.nodeType == DroneNode)
    && (forall i, j | 0 <= i < j < |voters| :: voters[i] < voters[j])
  }

  /** Only a proposing move adds a proposal. */
  lemma ProposalsComeFromProposing(s: System, m: Move, h: Hypot, more: seq<Event>, i: nat)
    requires Apply(s, m, h).history == s.history + more && i < |more| && more[i].Proposed?
    requires Environmental(m) ==> SwarmTheorems.Neutral(more)
    ensures m.ProposeTask? && i == 0 && more[0].voters == OnlineDroneIds(s.station.peers)
  {
    assert more == (s.history + more)[|s.history|..];
    if m.ProposeTask? {
      assert more == Propose(s, m.role, m.x, m.y).history[|s.history|..];
    } else if m.ControllerSteps? {
      SwarmTheorems.ControllerCases(s.proposer, s.station.outcome);
      assert false;
    }
  }

  /**
   Every proposal of every history was made by a proposing move, and asks exactly the drones that
   were ONLINE in the station's table at that moment.
   */
  lemma {:induction false} ProposalsAskOnlineDrones(s0: System, moves: seq<Move>, h: Hypot, p: nat) returns (j: nat)
    requires Initial(s0) && p < |Run(s0, moves, h).history| && Run(s0, moves, h).history[p].Proposed?
    ensures j < |moves| && moves[j].ProposeTask? && p == |Run(s0, moves[..j], h).history|
    ensures AsksOnlineDrones(Run(s0, moves, h).history[p].voters, Run(s0, moves[..j], h).station.peers)
    decreases |moves|
  {
    var front, m := moves[..|moves| - 1], moves[|moves| - 1];
    var before := Run(s0, front, h);
    var more := SwarmTheorems.HistoryGrows(before, m, h);
    if p < |before.history| {
      j := ProposalsAskOnlineDrones(s0, front, h, p);
      assert front[..j] == moves[..j];
    } else {
      j := |moves| - 1;
      ProposalsComeFromProposing(before, m, h, more, p - |before.history|);
      StationKeyed(s0, front, h);
      VotersAreOnlineDrones(before.station.peers, 0);
    }
  }

  /** Every drone that is ONLINE in the table gave an ACK between proposal p and outcome c. */
  ghost predicate AllOnlineAcked(hist: seq<Event>, p: int, c: int, tx: uint32, peers: Peers) {
    forall id | id in peers && peers[id].status == Online && peers[id].info.nodeType == DroneNode ::
      SwarmTheorems.AckBetween(hist, p, c, tx, id)
  }

  /**
   Behind every order of every reachable history there is a proposing move such that each drone
   ONLINE in the station's table at that move gave its ACK before the commit.
   */
  lemma OrdersHaveAllOnlineAcks(s0: System, moves: seq<Move>, h: Hypot, k: nat) returns (p: int, c: int, j: nat)
    requires Initial(s0) && Proposals(Run(s0, moves, h).history) < TWO_TO_THE_32
    requires k < |Run(s0, moves, h).history| && Run(s0, moves, h).history[k].Ordered?
    ensures var all := Run(s0, moves, h).history;
            && SwarmTheorems.Authorised(all, k, p, c)
            && j < |moves| && moves[j].ProposeTask? && p == |Run(s0, moves[..j], h).history|
            && AllOnlineAcked(all, p, c, all[k].order.taskId, Run(s0, moves[..j], h).station.peers)
  {
    var all := Run(s0, moves, h).history;
    p, c := SwarmTheorems.ReachableOrdersRestOnAcks(s0, moves, h, k);
    j := ProposalsAskOnlineDrones(s0, moves, h, p);
  }
}
