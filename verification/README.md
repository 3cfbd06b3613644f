# Verified model of the swarm coordinator

The repository coordinates a small swarm: one ground station proposes missions, the drones it can
hear vote on them, and a mission is ordered only after a unanimous ACK.  Every node runs the same
Task Engine, a queue of task objects of which the front one is active, and keeps a table of its
peers from heartbeats and telemetry.  This project models that behaviour in Dafny and proves what it
is for, from the flight of one drone up to commit safety of the whole system.

The model has two levels.

* **Values.**  A node is a value (`Engine.Node`), a step of its Task Engine a function on it, and a
  run a sequence of actions (`Engine.Execute`).  `Swarm.System` is one ground station, its
  controller, any number of drones and the history of everything published so far.  The history is
  also the network: any message in it may be delivered to anyone at any later time, any number of
  times, or never.  All theorems about runs are about these values.
* **Objects.**  `DroneState`, the task classes, `PeerManager`, `SwarmManager`, `GcsController` and
  `MissionDriver` keep the program's own fields and update them in place, with its loops and its
  shared flight state.  Each method is proved to move the value its object stands for exactly as
  the function of the same operation does, so the theorems are theorems about the objects.

| File | Contents |
|---|---|
| `Types.dfy` | messages, enumerations, 32-bit wrap-around, the steady clock |
| `Ballots.dfy` | the vote collector, and what any sequence of votes decides |
| `Motion.dfy`, `Missions.dfy` | flight at constant speed; missions over arbitrary schedules |
| `Tasks.dfy` | the tasks as values, and which task an order becomes |
| `PeerTable.dfy` | liveness flags and the sequence-number filter |
| `Engine.dfy` | the Task Engine step |
| `Lifecycle.dfy`, `QueueShape.dfy`, `CommandDrain.dfy` | invariants and specification of the engine |
| `Decision.dfy`, `Emergency.dfy`, `QueueDrain.dfy` | a whole vote, a whole descent, the end of all work |
| `EmergencyRuns.dfy`, `DescentProfile.dfy` | when an emergency begins and ends, told from the messages; the exact course of its descent |
| `MissionRuns.dfy`, `OrderedFlights.dfy`, `Touchdown.dfy` | missions flown by the Task Engine over whole runs; from an order to its end; those ordered during an emergency |
| `Controller.dfy`, `MissionLoop.dfy` | the proposer, and the driver with its fixed programme |
| `Swarm.dfy`, `SwarmSafety.dfy`, `SwarmTheorems.dfy` | the system, its invariant, commit safety |
| `VotePhases.dfy`, `Timeouts.dfy`, `Progress.dfy` | where the controller's open vote stands, how it can be lost, when it may time out, and that the programme completes otherwise |
| `Snapshots.dfy`, `Scenarios.dfy`, `FirstMission.dfy` | who is asked to vote; runs that do happen |
| `TaskObjects.dfy`, `PeerManager.dfy`, `SwarmManager.dfy`, `GcsController.dfy` | the objects |

## Assumptions

* Time is an integer number of nanoseconds.  `duration_cast` to milliseconds truncates toward zero,
  as in C++; fractional seconds are exact.  Theorems about time assume a clock that does not go
  backwards.
* `double` is `real`.  `std::hypot` is a parameter: any function whose result is nonnegative and
  has the right square (`Motion.IsHypot`).
* `uint8` and `uint32` are exact ranges; `seq_num + 20` and `++next_transaction_id_` wrap around.
* `task_engine_step`, `propose_task`, `step` and `consume_result` are atomic.  This matters: a
  request that lands between lines 200 and 226 of src/swarm_manager.cpp is applied one step later,
  and a vote processed in between is lost.
* Node ids are distinct, there is one incarnation of the ground station, and only its controller
  requests votes.  Commit safety needs fewer than 2^32 proposals; under the mission loop
  (`MissionLoop.DrivenCommitSafety`) that is proved rather than assumed.
* Peer traffic and battery changes are arbitrary in every theorem about runs.  That only makes them
  stronger: the running program sets the battery once, at start-up (src/main.cpp:211), and nothing
  lowers it.  The runs shown below as findings change it by a restart only.

## Findings

* A voter's first vote does not settle its position.  If every voter's first vote is an ACK, the
  transaction can still be aborted by a NACK.  A drone answers both ways when it restarts with a low
  battery and the proposal, which the transport retains (src/fastdds_wrapper.cpp:242-245), reaches it again
  (`Scenarios.DronesMayChangeTheirMind`); if the station hears its two answers before the ACK of another
  voter, it aborts (`Scenarios.UnanimousFirstVotesMayAbort`, a run of the whole system from every initial
  state with two fit drones).  The exact condition is in `Ballots.VotesDecide`.
* A vote over an empty voter list commits at once (src/task/consensus_task.cpp:27-31), so with no
  drone online an order is published without any vote (`Scenarios.OrderWithoutVote`).  An order rests
  on an ACK of one of its voters if and only if the snapshot was nonempty
  (`SwarmTheorems.ReachableOrdersRestOnAcks`).  The words "of its voters" are needed: a drone that
  the station has not heard may answer too (`Scenarios.StrangersMayAck`).
* Comments and the repository's README (decision V32) say that `on_enter` would erase a decision
  reached before it.  The code now re-evaluates the votes, and for a nonempty voter list the position
  of `on_enter` among the votes no longer matters (`Ballots.EnterKeepsDecision`).
* On a drone, `push_task` of a vote collector or an `IdleTask` directly behind an `IdleTask` breaks
  the life cycle: the collector can get a vote before `on_enter`, the second Idle can get `on_exit`
  without `on_enter`.  Behind the Idle of a resting drone a push is safe in every continuation if and
  only if it is neither (`Lifecycle.PushBehindIdleIsSafeIff`; the failing run is in
  `Lifecycle.DelicatePushFails`).  On the ground station every push is harmless, because no order
  displaces Idle there (`Lifecycle.StationLifecycle`).  The running program never calls `push_task`.
* The telemetry filter is the strict running maximum exactly on packets that are new, or at most 20
  behind with no wrap of `seq + 20` (`PeerTable.FilterRefinesRunningMax`).  A packet numbered 0 is
  rejected and yet resets the tracker, after which any old packet is accepted
  (`PeerTable.PacketZeroOpensFilter`); a packet above 2^32 - 21 is accepted again when it is repeated
  (`PeerTable.RepeatedPacketAccepted`); `PeerTable.OldPacketAccepted` has the exact condition.  The same
  wrap-around makes a packet near the top of the range report a new stream in the middle of one
  (`PeerTable.NewStreamIsFirstAccepted`).
* An emergency that begins while a vote is requested or undecided discards it without an outcome; so
  does a newer proposal, and nothing else does (`VotePhases.DiscardedOverRuns`).  The mission loop
  supersedes nothing (`VotePhases.OffersSupersedeNothing`), so under it an emergency is the only way.
  The deadline of a vote is kept if and only if no emergency begins at that step
  (`VotePhases.DecidedInSystemIffNoAlarm`).  A lost vote leaves the controller in VOTING for good and the
  mission loop never proposes again (`VotePhases.LostStopsTheLoop`).  From every initial state the first
  vote can end like this: the drone that is asked falls silent for 3 s
  (`VotePhases.FirstVoteCanBeLost`).  Without such a strike the programme completes by a time known in
  advance (`Progress.ProgrammeCompletes`).
* Missions ordered during an emergency are flown after touchdown, in arrival order, even while the
  emergency persists: the landing step enters the first of them if and only if an order for this drone
  arrived since the alarm (`Touchdown.MissionsFollowTouchdown`).
* The emergency flag and the emergency sequence are two things.  The flag says what the last step found
  (`EmergencyRuns.FlagOverRuns`); the sequence begins exactly when the flag rises
  (`EmergencyRuns.SequenceBeginsIff`), but once begun it is carried through even if the danger passes
  (`EmergencyRuns.SequenceOutlivesDanger`), so a FailSafe in front does not mean that there is an emergency.
* No task raises the altitude, so a drone that starts at zero stays there (`Emergency.AlwaysGrounded`),
  and its landing ends at the first run after the assessment.  The descent theorems cover any altitude
  above zero, which enters the program only through the `drone_state()` accessor.

## Model

| member | source | states |
|---|---|---|
| SwarmTheorems.CommitSafety | src/swarm_manager.cpp:318-431 | in every reachable state of station, drones and a lossy, duplicating, reordering network, each queued mission is what an order for that drone's role asks for; its transaction was proposed with that role and target, committed before the order, and every drone of the voter snapshot had sent an ACK between proposal and commit with battery >= 15 |
| MissionLoop.DrivenCommitSafety | src/main.cpp:104-165 | under the mission loop, at every moment of every run, each queued mission is one of the two programme missions for that drone's own role and is sanctioned as in CommitSafety, with no bound on proposals assumed |
| SwarmTheorems.UniqueDecision | src/gcs_controller.cpp:15-98 | in every reachable history a transaction is proposed once and published or cancelled at most once, never both; published ids strictly increase, each order carries what was proposed under its id, and each decision follows that transaction's own recorded outcome |
| SwarmTheorems.LegitimateDecisions | src/gcs_controller.cpp:70-98 | in a history whose events are each justified by their past, proposals and decisions are unique per transaction and every decision follows its own outcome |
| SwarmTheorems.ReachableInv | src/gcs_controller.cpp:15-98 | the system invariant (every event justified by its past, ballots hold only published votes, queues hold only ordered missions) holds after every run |
| SwarmTheorems.MoveKeepsInv | src/swarm_manager.cpp:197-288 | each move of the system keeps that invariant: steps, deliveries, proposals, decisions, drone restarts |
| SwarmTheorems.CommitIsUnanimous | src/task/consensus_task.cpp:86-125 | a recorded COMMITTED outcome of a transaction implies an ACK of every voter of its proposal, sent after the proposal and before the outcome, by a drone with battery >= 15 |
| SwarmTheorems.OrdersAreAuthorised | src/gcs_controller.cpp:70-98 | every order in a legitimate history has its matching proposal and its commit before it |
| SwarmTheorems.ReachableOrdersRestOnAcks | src/gcs_controller.cpp:15-98 | every order of every reachable history rests on a timely ACK of one of its voters if and only if the voter snapshot was nonempty |
| Snapshots.OrdersHaveAllOnlineAcks | src/gcs_controller.cpp:27-42 | behind every order of every reachable history is a proposing move such that each drone then ONLINE in the station's table gave an ACK, fit to fly, between proposal and commit |
| Snapshots.ProposalsAskOnlineDrones | src/gcs_controller.cpp:27-42 | every proposal was made by a proposing move and its voters are exactly the drones ONLINE in the station's table at that moment, each once, in order |
| Snapshots.KeyedOverRuns | src/peer_manager.cpp:13-45 | in every run of a node each peer record carries its own key |
| Scenarios.OrderWithoutVote | src/task/consensus_task.cpp:27-31 | from every initial state with no emergency, the first proposal with no drone online becomes an order and the history holds no vote |
| Scenarios.StrangersMayAck | src/swarm_manager.cpp:336-343 | in such a run a drone that is no voter may still have put an ACK on record before the commit |
| Scenarios.DronesMayChangeTheirMind | src/swarm_manager.cpp:403-431 | in any state, a fit drone that hears a proposal, restarts with a low battery and hears it again adds exactly an ACK and then a NACK for it to the history |
| Scenarios.UnanimousFirstVotesMayAbort | src/task/consensus_task.cpp:101-111 | from every initial state with a fit station and two fit drones there is a run in which both are the voters, each one's first vote is an ACK, and the station records an abort by NACK and withdraws |
| FirstMission.VotedMissionIsFlown | src/swarm_manager.cpp:318-389 | from every initial state with a fit station and a fit, answering drone, and for every place more than 0.5 m away, there is a run whose history is the proposal to that drone, its ACK, the commit and the order, and whose last step sets the drone moving toward the place at 5 m/s |
| SwarmSafety.PublishedVotesJustified | src/swarm_manager.cpp:403-431 | every vote a drone publishes answers a proposal that is on the network, carries its own id, and is ACK exactly when its battery is at least 15 |
| SwarmSafety.StationTick | src/swarm_manager.cpp:197-288 | a station step keeps ballots, outcome and request backed by published votes, and publishes no vote itself |
| MissionLoop.DrivenInStep | src/main.cpp:104-165 | whatever the environment does, the controller's events in the history are: mission i proposed under id i+1, then exactly one decision of that id, then mission i+1; at most one proposal is outstanding, and an offer comes at least 8 s after the loop began and 5 s after the previous result |
| MissionLoop.OrdersAreMissions | src/main.cpp:104-112 | every order of a driven system is (1, scout, 80, 40) or (2, striker, 150, -60) |
| MissionLoop.IterationSends | src/main.cpp:122-164 | the proposal, the request and the order that one iteration of the loop sends are exactly those its moves put into the system's station and history |
| Controller.NumberOfProposal | src/gcs_controller.cpp:21-22 | the n-th proposal has id n modulo 2^32 |
| Controller.NumbersRepeatAfterWrap | src/gcs_controller.cpp:21-22 | two proposals share an id if and only if they lie a multiple of 2^32 apart |
| Decision.WaitingVotesDecide | src/swarm_manager.cpp:170-231 | no vote is lost: the step that applies a request counts every vote already queued and records COMMITTED, records ABORTED or goes on, each in exactly the case the votes demand |
| Decision.EveryVoteCounts | src/swarm_manager.cpp:325-358 | over any undisturbed run of the station, an undecided vote has counted every vote processed and no step has come at or past its deadline; a recorded outcome is the verdict on the votes heard by then, a timeout only if some step came at or past the deadline |
| Decision.VoteDecidesForTheRest | src/swarm_manager.cpp:238-288 | on the ground station an aborted vote takes every task queued behind it with it, not one more call being made on them; a committed one lets the next task begin; while it is open they wait |
| Ballots.NoEarlyTimeout | src/task/consensus_task.cpp:48-70 | a vote entered at t, whatever it heard before, and any votes and clock ticks after: while every tick is earlier than t + 5 s its result is exactly what the votes demand, and undecided without a NACK or unanimity |
| Timeouts.TimeoutsAreDue | src/task/consensus_task.cpp:48-70 | in every reachable state of the system, a timeout on record belongs to a vote whose request some station step took up, and a later step came at least 5 s after that one |
| VotePhases.OpenVoteHasOnePhase | src/gcs_controller.cpp:70-98 | in every reachable state with the controller voting, exactly one holds of its active id: its vote is requested, its entered collector is in front and undecided, its outcome is on record, or the vote is lost |
| VotePhases.DrivenVoteHasOnePhase | src/main.cpp:104-165 | the same at every moment of every run under the mission loop, with no bound on proposals assumed |
| VotePhases.LostIffStruckOverRuns | src/swarm_manager.cpp:197-210 | in every reachable state with the controller voting and its active vote not yet lost, a move makes the active vote a lost one if and only if it is a station step at which an emergency begins while that vote is requested or undecided |
| VotePhases.DiscardedOverRuns | src/swarm_manager.cpp:170-210 | in every reachable state and for every transaction whose vote is requested or undecided, a move leaves that vote neither standing nor decided if and only if an emergency begins at a station step or a newer proposal supersedes it |
| VotePhases.OffersSupersedeNothing | src/main.cpp:126-140 | when the mission loop is due to offer, no vote on any transaction is requested or undecided |
| VotePhases.DecidedInSystemIffNoAlarm | src/task/consensus_task.cpp:48-70 | in every reachable state, at or past the deadline of the open vote, one station step and one controller step end the voting if and only if no emergency begins at that step; otherwise the vote is lost |
| VotePhases.LostStopsTheLoop | src/main.cpp:122-164 | once the open vote is lost, over any further iterations it stays lost, the loop's state does not change and the controller never proposes, orders or withdraws anything again |
| VotePhases.FirstVoteCanBeLost | src/swarm_manager.cpp:456-474 | from every initial state, a mission loop turn in which the one drone heard is asked and then silent for 3 s loses the first vote |
| Progress.ProgrammeCompletes | src/main.cpp:104-165 | in every driven run with loop turns and station steps at most a gap apart and no emergency striking an open vote, by discovery plus two vote timeouts plus one pause plus seven gaps both missions have been offered and each ordered or withdrawn |
| Progress.TurnOnSchedule | src/main.cpp:122-164 | one such iteration keeps the schedule: an offer is made in time, its collector is entered within a gap, and its result is settled within the timeout and three gaps of the offer |
| Decision.DecidedIffNoAlarm | src/swarm_manager.cpp:197-288 | at or past its deadline, a vote without an outcome gets one from the step if and only if no emergency begins at it |
| Decision.DecidedWithinTimeout | src/task/consensus_task.cpp:48-70 | without a new emergency or request, the first step at or after entry plus timeout records the outcome of the votes and removes the collector, and a controller voting on that id then leaves VOTING, publishing exactly on a commit |
| Decision.StruckVoteNeverAnswers | src/swarm_manager.cpp:433-450 | after a step at which an emergency begins, over every continuation without a new request, the controller's step does nothing |
| Decision.EmptyVoteCommits | src/task/consensus_task.cpp:27-31 | a requested vote among nobody is recorded as COMMITTED by the next step, whatever is waiting |
| Decision.OngoingVoteStep | src/swarm_manager.cpp:243-284 | a step of a vote in progress delivers all its queued votes, then lets it time out, and records and removes it exactly when it is decided |
| Ballots.VotesDecide | src/task/consensus_task.cpp:18-125 | for any votes and any position of on_enter among them: COMMITTED iff at some moment every voter's last vote was ACK and no NACK had been heard, ABORTED iff a voter said NACK before any such moment |
| Ballots.VoteConfluence | src/task/consensus_task.cpp:86-125 | with consistent voters the result ignores order, duplicates, strangers and the place of on_enter: COMMITTED iff all voters ACKed, ABORTED iff one NACKed |
| Ballots.EnterKeepsDecision | src/task/consensus_task.cpp:18-46 | on_enter after any votes changes only the start time |
| Ballots.FirstVotesDoNotDecide | src/task/consensus_task.cpp:101-111 | a concrete ballot whose voters all ACK first and which aborts |
| Ballots.FaithfulOutcome | src/task/consensus_task.cpp:18-125 | over the whole life of a ballot the result agrees with the vote map, a timeout abort has no NACK and a missing vote, and a decided ballot never changes again |
| Lifecycle.LifecycleOverRuns | src/swarm_manager.cpp:197-316 | over every run, with any pushes but the unsafe ones on a drone, each task instance is in exactly one place, instances behind the front have received no call, active_task_started_ holds exactly when the front was entered, and every instance's calls are a prefix of on_enter (on_vote or run)* on_exit |
| Lifecycle.StationLifecycle | src/swarm_manager.cpp:361-369 | on the ground station the same holds over every run with any pushes whatever |
| Lifecycle.PushBehindIdleIsSafeIff | src/swarm_manager.cpp:374-382 | behind the Idle of a resting drone, a pushed task leaves the life cycle legal in every continuation if and only if it is neither a vote collector nor Idle |
| Lifecycle.DelicatePushFails | src/swarm_manager.cpp:374-382 | from every resting drone and for every such task, the run push, order, vote or second order, step ends with an illegal life cycle |
| Lifecycle.VotesReachEnteredCollectors | src/swarm_manager.cpp:212-231 | in every run, at every point of command processing, a collector at the front has been entered |
| Lifecycle.FrontIsEnteredAfterStep | src/swarm_manager.cpp:290-316 | after every step a nonempty queue has an entered front whose type is the recorded one |
| Lifecycle.VoteBehindIdleArrivesEarly | src/swarm_manager.cpp:374-380 | the family of states in which a pushed collector behind Idle gets its first vote before on_enter |
| Lifecycle.IdleBehindIdleExitsUnentered | src/swarm_manager.cpp:374-380 | the family of states in which a pushed second Idle exits without having been entered |
| QueueShape.QueueShapeOverRuns | src/swarm_manager.cpp:170-316 | between steps of every operational run a drone's queue is [], [Idle], an emergency sequence followed by missions of its role, or such missions; the station's is [], [Idle], [Consensus] or an emergency sequence; the front's type is active_task_type_ |
| QueueShape.StepAtRest | src/swarm_manager.cpp:197-288 | one step keeps that shape, also at the two points where commands and the front task are processed |
| QueueShape.ReportedTask | src/swarm_manager.cpp:391-401 | in every reachable operational state with something queued, the task type on record (the one a heartbeat carries) is the kind of the front task, so only a scout reports ScoutSearch, only a striker GoToTarget, only the station Consensus |
| QueueShape.DroneMovesWithCause | src/swarm_manager.cpp:233-288 | in every reachable operational state of a drone its velocity is zero unless the task in front is flying it (a leg, a search not yet at its centre, a descent), and the task in front is never a finished one |
| CommandDrain.DrainMeetsSpec | src/swarm_manager.cpp:318-389 | the FIFO is emptied; the queue loses a leading Idle exactly when some order is for this role and gains those orders' tasks in arrival order; exactly one vote per foreign proposal is published, in order, none by a station or a silenced drone |
| CommandDrain.AnswersAreJustified | src/swarm_manager.cpp:403-431 | each published vote answers a waiting foreign proposal and is ACK iff the battery is at least 15, NACK otherwise |
| Decision.DrainCollects | src/swarm_manager.cpp:345-358 | with a collector in front, whatever waits behind it, processing the FIFO delivers to it exactly the foreign votes for its transaction, in order, and changes nothing else |
| Emergency.EmergencyDescent | src/swarm_manager.cpp:433-450 | from an alarm until a Landing finishes, whatever arrives and even if the alarm fires again: x and y never change, z never rises nor goes below 0, nothing created before the alarm is queued again, and the landing step ends at z = 0 in the same place |
| Emergency.DescentTime | src/task/landing_task.cpp:10-43 | with step gaps at most d and no second alarm, a drone that has not landed is less than 1 s + z/(1 m/s) + d past the alarm |
| Touchdown.MissionsFollowTouchdown | src/swarm_manager.cpp:374-382 | at the landing step after an alarm, the queue becomes exactly the missions ordered of this drone since the alarm, in arrival order, the first entered; so its front is a mission if and only if one was ordered, whether or not the emergency persists |
| Emergency.AlwaysGrounded | src/task/landing_task.cpp:16-43 | in every run from the start the altitude is zero |
| Emergency.ReachableDescentTime | src/task/fail_safe_task.cpp:22-33 | in a run from the start a drone that has not landed is less than 1 s plus one step gap past the alarm |
| Emergency.DescentStep | src/task/fail_safe_task.cpp:13-33 | each step of a descent keeps the place and either goes on descending or lands at ground level |
| Emergency.AlarmStep | src/swarm_manager.cpp:202-223 | the alarm step replaces the whole queue by an entered FailSafe, with the drone stopped where it is |
| EmergencyRuns.FlagOverRuns | src/swarm_manager.cpp:202-210 | at any moment of any run from the start the emergency flag holds if and only if the last step found the battery below 15 or a known peer OFFLINE |
| EmergencyRuns.SequenceBeginsIff | src/swarm_manager.cpp:433-462 | in every reachable state of a drone, a step puts a new FailSafe, entered now, and a Landing in front if and only if there was no emergency before and the battery is below 15 or a known peer is OFFLINE; no other step creates a FailSafe at all |
| EmergencyRuns.SilenceBeginsSequence | src/swarm_manager.cpp:456-474 | right after a refresh this is the case exactly when the last step had found no danger and now the last reported battery is below 15 or some node that sent a heartbeat has given no proof of life for 3 s |
| EmergencyRuns.NodeTableIsReplay | src/swarm_manager.cpp:585-654 | in every run from the start a node's peer table is what the messages of other nodes make of an empty one under the 3000 ms timeout, and its battery is the last level reported |
| EmergencyRuns.SequenceOutlivesDanger | src/swarm_manager.cpp:202-210 | when the danger passes within the assessment, a step clears the flag and leaves the FailSafe in front |
| DescentProfile.ExactDescent | src/task/landing_task.cpp:10-43 | from an alarm without a second one: the drone hovers until the first step a full second after the alarm; from then on it sinks straight down at 1 m/s, its altitude exactly what it was less the time since; and it lands, still and at zero, at exactly the first step by which that is used up |
| QueueDrain.QueueDrains | src/swarm_manager.cpp:233-316 | from every reachable operational state, once no order, request or alarm arrives and steps are at least d > 0 apart, the queue becomes [Idle] after finitely many steps and stays so |
| QueueDrain.RunLeavesLessWork | src/task/scout_search_task.cpp:26-58 | a run that does not finish its task strictly lowers the bound on the runs it still needs, for every kind of task |
| QueueDrain.StepWorks | src/swarm_manager.cpp:233-288 | a step without new work shortens the queue or lowers the front's remaining work, unless the node is already idle |
| Motion.MoveAdvances | src/task/motion.cpp:17-57 | an unfinished move goes exactly speed times elapsed along the straight line and ends with the velocity of that speed toward the target, level; it arrives exactly when the rest is within tolerance or within reach |
| Motion.RemainingOnSegment | src/task/motion.cpp:7-15 | on the segment, the distances to start and target are what was and was not travelled |
| Motion.ArrivalIsClose | src/task/motion.cpp:27-43 | an arrival leaves the drone where it was if that is within tolerance, otherwise exactly at the target, at rest either way |
| Missions.TickSlicingIndependence | src/task/go_to_target_task.cpp:14-29 | after any schedule of unfinished runs the drone is exactly 5 m/s times the elapsed time along the line, with the rest ahead, and flies at 5 m/s toward the target: how time was sliced does not matter and it never overshoots |
| Missions.LegFinishesOnArrival | src/task/go_to_target_task.cpp:20-29 | the next run finishes exactly when the distance left is within tolerance or 5 m/s times the elapsed time covers the whole way, and then ends at rest within 0.5 m |
| Missions.SearchPhases | src/task/scout_search_task.cpp:26-47 | a search is either still on its straight line, flying at 5 m/s along it, or was brought to rest within 0.5 m of the centre by one run and has not moved since |
| Missions.ScoutFinishesAfterScan | src/task/scout_search_task.cpp:49-58 | a search finishes exactly at a run that comes the scan time or more after the run that arrived, motionless in between |
| Missions.ScoutFinishesInTime | src/task/scout_search_task.cpp:19-58 | with gaps at most d, a search still unfinished is younger than D/5 s plus d plus the scan time |
| MissionRuns.LegInEveryRun | src/swarm_manager.cpp:233-288 | on a drone whose front is an entered leg, in any run without a new emergency: the leg is still in front and the drone on its straight line at 5 m/s times the elapsed time, with that velocity, or one tick ended it at rest within 0.5 m of the target, the first at which the way was covered or the rest within tolerance |
| MissionRuns.LegEndsInTime | src/swarm_manager.cpp:233-288 | such a leg has been ended at its target once the clock has ticked past D/5 s, and by a tick no later than D/5 s plus one gap |
| MissionRuns.SearchInEveryRun | src/swarm_manager.cpp:233-288 | a scout mission in any such run is on its way with the velocity of its line, at rest and scanning within 0.5 m of the centre since a tick that arrived in time, or was ended there by a tick the scan time or more after that arrival |
| MissionRuns.SearchEndsInTime | src/swarm_manager.cpp:233-288 | a scout mission has been ended at the centre once the clock has ticked past D/5 s, one gap and the scan time |
| OrderedFlights.OrderedStrikerFlies | src/task/go_to_target_task.cpp:8-29 | a resting striker with one order for it, over any undisturbed run from the step that takes it up: it starts from where it rests and is exactly 5 m/s times the time since then along the straight line, with that velocity, until a tick within the flight time plus one gap leaves it at rest within 0.5 m of the ordered place |
| OrderedFlights.OrderedScoutSearches | src/task/scout_search_task.cpp:19-58 | the same for a scout: on its line, or at rest within 0.5 m of the ordered place since a tick no later than the flight time plus one gap and less than 5 s ago, or ended there by a tick 5 s or more after that arrival |
| OrderedFlights.RestingStays | src/task/idle_task.cpp:10-30 | a resting drone with no order for it keeps Idle alone in its queue and stays still in its place |
| PeerTable.OnlineMeansRecentlyHeard | src/peer_manager.cpp:108-134 | after a refresh, for any interleaving of arrivals, the known peers are exactly the heartbeat senders, and one is ONLINE iff its last heartbeat or accepted telemetry is younger than the timeout |
| PeerTable.TableTracksHistory | src/peer_manager.cpp:13-45 | at every moment of every history a record holds the time of the last proof of life and is OFFLINE only when that is at least the timeout ago |
| PeerTable.FilterRefinesRunningMax | src/peer_manager.cpp:73-99 | over any arrival sequence the wrapping filter equals the strict running maximum throughout, if and only if every packet is new or at most 20 behind without wrap |
| PeerTable.PacketZeroOpensFilter | src/peer_manager.cpp:73-90 | after a packet 0, with more than 20 remembered, any old packet is accepted |
| PeerTable.RepeatedPacketAccepted | src/peer_manager.cpp:73-90 | every packet above 2^32 - 21 is accepted again when repeated |
| PeerTable.TelemetryFilterIsRunningMax | src/peer_manager.cpp:34-106 | inside the table, from any state and over any history of all peers' arrivals: when the packets of a peer since it was last heard again from OFFLINE (or first heard) are recent, those accepted since then are exactly the strict running maxima, counted from 0 whatever number had been remembered, and last_seen_seq is their maximum |
| PeerTable.TableRunsFilter | src/peer_manager.cpp:34-106 | over any such history, recent or not, the packets accepted since the last return are those of the wrapping filter started at 0 |
| PeerTable.NewStreamIsFirstAccepted | src/peer_manager.cpp:92-98 | on recent packets a new stream is reported by exactly the first packet accepted since the return, and by packets so near 2^32 that the threshold sum wraps below the remembered number |
| PeerTable.RecordShowsLastHeartbeat | src/peer_manager.cpp:13-32 | over any history a record exists exactly for the senders of heartbeats and shows the kind, role and task of the sender's last one |
| PeerTable.MaxAcceptsIncreasing | src/peer_manager.cpp:87-99 | the running maximum accepts strictly increasing numbers and remembers the largest |
| PeerTable.RestartRecovery | src/peer_manager.cpp:73-105 | after a fast restart with any remembered number and any gaps, at most 21 packets are rejected, all first, and every later one is accepted |
| PeerTable.TwentyOneIsAttained | src/peer_manager.cpp:73-90 | for every remembered number in range there is a restart that loses exactly 21 packets |
| PeerTable.VotersAreOnlineDrones | src/peer_manager.cpp:176-189 | the voter list is exactly the ONLINE drones, each once, in increasing order |
| SwarmManagers.SwarmManager.TaskEngineStep | src/swarm_manager.cpp:197-288 | the step on task objects refines Engine.Step on node values, publishes exactly the votes of the specification and no order |
| SwarmManagers.SwarmManager.ProcessPendingCommands | src/swarm_manager.cpp:318-389 | the draining loop refines Engine.Drain in state and publications |
| SwarmManagers.SwarmManager.ApplyPendingConsensusRequest | src/swarm_manager.cpp:170-195 | takes the request, discards the queue, queues a blank collector and clears the started flag |
| SwarmManagers.SwarmManager.PrepareQueue | src/swarm_manager.cpp:290-303 | an empty queue falls back to Idle and an unentered front is entered |
| SwarmManagers.SwarmManager.StartActiveTask | src/swarm_manager.cpp:305-316 | on_enter reaches the front object alone and its type is recorded |
| SwarmManagers.SwarmManager.ConcludeActiveTask | src/swarm_manager.cpp:238-288 | a finished front is recorded and leaves; an aborted vote takes the whole queue with it, otherwise the next task is entered |
| SwarmManagers.SwarmManager.PlaceEmergencyTasks | src/swarm_manager.cpp:433-450 | on the rising edge only, the queue becomes FailSafe then Landing |
| SwarmManagers.SwarmManager.EmergencyDetected | src/swarm_manager.cpp:456-474 | battery below 15 or at least one OFFLINE peer |
| SwarmManagers.SwarmManager.CastVote | src/swarm_manager.cpp:403-431 | publishes the specified answer to a proposal, or nothing when silenced |
| SwarmManagers.SwarmManager.HandleOrder | src/swarm_manager.cpp:361-384 | an order for this role displaces a leading Idle and appends its task |
| SwarmManagers.SwarmManager.HandleConsensus | src/swarm_manager.cpp:325-359 | own messages are ignored, proposals answered by drones, votes passed to the active collector of that transaction |
| SwarmManagers.SwarmManager.PostRequest | src/swarm_manager.cpp:162-168 | leaves the request for the next step and touches nothing else |
| SwarmManagers.SwarmManager.EnqueueCommand | src/swarm_manager.cpp:660-668 | appends to the FIFO |
| SwarmManagers.SwarmManager.PushBack | src/swarm_manager.cpp:710-716 | appends a task object that no other slot shares |
| SwarmManagers.SwarmManager.OnHeartbeatReceived | src/swarm_manager.cpp:600-631 | own heartbeats are ignored, others update the table |
| SwarmManagers.SwarmManager.OnTelemetryReceived | src/swarm_manager.cpp:633-654 | own telemetry is ignored; the verdict is the filter's |
| SwarmManagers.SwarmManager.UpdatePeerList | src/swarm_manager.cpp:585-598 | refreshes every record at once |
| SwarmManagers.SwarmManager.constructor | src/swarm_manager.cpp:31-55 | everything fresh, nothing queued, the given battery |
| PeerManagers.PeerManager.OnHeartbeatReceived | src/peer_manager.cpp:13-45 | the in-place update equals PeerTable.OnHeartbeat |
| PeerManagers.PeerManager.OnTelemetryReceived | src/peer_manager.cpp:47-106 | the in-place update, verdict and new-stream flag equal PeerTable.OnTelemetry |
| PeerManagers.PeerManager.RefreshStatus | src/peer_manager.cpp:108-134 | the loop marks exactly the ONLINE records silent for the timeout |
| PeerManagers.PeerManager.CountWithStatus | src/peer_manager.cpp:163-202 | the counting loop returns the number of peers with that status |
| PeerManagers.PeerManager.CollectOnlineDroneIds | src/peer_manager.cpp:176-189 | the listing loop returns the voter list |
| TaskObjects.MoveTowardTarget | src/task/motion.cpp:17-57 | the in-place move equals Motion.MoveToward |
| TaskObjects.ConsensusTask.constructor | src/task/consensus_task.cpp:5-16 | every expected voter is PENDING, once |
| TaskObjects.ConsensusTask.OnEnter | src/task/consensus_task.cpp:18-46 | the loop over the vote map refines Ballots.Enter |
| TaskObjects.ConsensusTask.OnVote | src/task/consensus_task.cpp:86-112 | refines Ballots.OnVote: late and foreign votes ignored, NACK decides at once |
| TaskObjects.ConsensusTask.EvaluateResult | src/task/consensus_task.cpp:114-125 | commits exactly when all recorded votes are ACK |
| TaskObjects.ConsensusTask.Run | src/task/consensus_task.cpp:48-70 | refines Ballots.Run |
| TaskObjects.ScoutSearchTask.Run | src/task/scout_search_task.cpp:26-58 | refines Tasks.RunSearch on task and shared flight state |
| TaskObjects.GoToTargetTask.Run | src/task/go_to_target_task.cpp:20-29 | refines Tasks.RunLeg on task and shared flight state |
| TaskObjects.LandingTask.Run | src/task/landing_task.cpp:16-43 | refines Tasks.RunDescent on task and shared flight state |
| TaskObjects.FailSafeTask.Run | src/task/fail_safe_task.cpp:22-33 | refines Tasks.RunAssessment and stops the drone |
| TaskObjects.AllocateTask | src/task_allocation_engine.cpp:23-47 | creates a fresh task object exactly when the order concerns this node, of the kind and target it names |
| GcsControllers.GcsController.ProposeTask | src/gcs_controller.cpp:15-58 | takes the next id, snapshots the online drones, leaves the request, publishes one proposal and prepares the order |
| GcsControllers.GcsController.Step | src/gcs_controller.cpp:70-98 | publishes the prepared order or cancels, as Controller.StepController decides from the recorded outcome |
| GcsControllers.GcsController.ConsumeResult | src/gcs_controller.cpp:60-68 | a terminal state goes back to resting, others stay |
| GcsControllers.MissionDriver.Turn | src/main.cpp:122-164 | one iteration refines MissionLoop.Iterate and sends exactly what is due: the proposal and the request with the online drones when an offer is due, the order when the outcome is a commit, nothing else |

## Left out

- GcsControllers.MissionDriver.Turn: the method sees no other thread between its proposal and its look at the outcome; `MissionLoop.Drive` does allow any moves there. The surrounding `while (!shutdown_requested)` and the 200 ms sleep are not modelled.
- QueueDrain.QueueDrains: gives a finite number of steps that the proof computes, not a closed formula for it.
- Lifecycle.LifecycleOverRuns: excludes, on a drone only, pushing a vote collector or an Idle directly behind an Idle; the if-and-only-if beside it is proved for a resting drone, not for an Idle that waits behind other tasks.
- Threads, mutexes and the singleton: steps are atomic, so torn reads of the recorded outcome and a request landing in the middle of a step are not captured.
- Fast DDS, its QoS and TCP locators, and IDL serialisation: replaced by the history-as-network. Publishers are the logs `sentConsensus` and `sentOrders`.
- Configuration from the environment, signals, logging and enumeration names: one-branch input and output.
- Building heartbeats and telemetry, wall-clock timestamps and `swarm_id`: messages that arrive are arbitrary instead.
- `InitTask`, `DiscoveryTask` and `HoverTask`: never queued by the running program.
- `clear_task_queue`: used by the repository's tests only; it leaves `active_task_started_` set, so it is not an action of the model.
- Floating-point rounding: flight is over exact reals.
- Restart of the ground station: transaction ids would start again at 1.
