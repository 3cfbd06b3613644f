/**
 The mutable objects of the program: a node's flight state and the tasks that share it.  Every
 method is proved against the function on values that the theorems are about.
 */
module TaskObjects {
  import opened SwarmTypes
  import opened Motion
  import opened Tasks
  import Ballots

  class DroneState {
    var x: real
    var y: real
    var z: real
    var vx: real
    var vy: real
    var vz: real
    var battery: uint8

    constructor ()
      ensures Model() == Flight(0.0, 0.0, 0.0, 0.0, 0.0, 0.0, 100)
    {
      x, y, z := 0.0, 0.0, 0.0;
      vx, vy, vz := 0.0, 0.0, 0.0;
      battery := 100;
    }

    ghost function Model(): Flight
      reads this
    {
      Flight(x, y, z, vx, vy, vz, battery)
    }

    method ResetVelocity()
      modifies this
      ensures Model() == old(Model()).ResetVelocity()
    {
      vx, vy, vz := 0.0, 0.0, 0.0;
    }
  }

  /** Fly toward the target for the elapsed time, without overshooting it. */
  method MoveTowardTarget(state: DroneState, h: Hypot, targetX: real, targetY: real,
                          speed: real, tolerance: real, elapsed: real) returns (arrived: bool)
    requires tolerance >= 0.0
    modifies state
    ensures Moved(state.Model(), arrived)
         == MoveToward(h, old(state.Model()), targetX, targetY, speed, tolerance, elapsed)
  {
    var remaining := HorizontalDistance(h, state.x, state.y, targetX, targetY);
    if remaining <= tolerance {
      state.ResetVelocity();
      return true;
    }
    var step := speed * elapsed;
    if step >= remaining {
      state.x := targetX;
      state.y := targetY;
      state.ResetVelocity();
      return true;
    }
    var directionX := (targetX - state.x) / remaining;
    var directionY := (targetY - state.y) / remaining;
    state.x := state.x + directionX * step;
    state.y := state.y + directionY * step;
    state.vx := directionX * speed;
    state.vy := directionY * speed;
    state.vz := 0.0;
    return false;
  }

  class IdleTask {
    const state: DroneState

    constructor (state: DroneState)
      ensures this.state == state
    {
      this.state := state;
    }

    method OnEnter(now: TimePoint)
      modifies state
      ensures state.Model() == old(state.Model()).ResetVelocity()
    {
      state.ResetVelocity();
    }

    method Run(now: TimePoint)
      modifies state
      ensures state.Model() == old(state.Model()).ResetVelocity()
    {
      state.ResetVelocity();
    }
  }

  class FailSafeTask {
    const state: DroneState
    const assessmentMs: int
    var start: TimePoint
    var finished: bool

    constructor (state: DroneState)
      ensures this.state == state && FailSafe(Model()) == NewFailSafe()
    {
      this.state, assessmentMs := state, ASSESSMENT_MS;
      start, finished := 0, false;
    }

    ghost function Model(): Assessment
      reads this
    {
      Assessment(assessmentMs, start, finished)
    }

    method OnEnter(now: TimePoint)
      modifies this, state
      ensures Model() == EnterAssessment(old(Model()), now)
      ensures state.Model() == old(state.Model()).ResetVelocity()
    {
      start := now;
      finished := false;
      state.ResetVelocity();
    }

    method Run(now: TimePoint)
      modifies this, state
      ensures Model() == RunAssessment(old(Model()), now)
      ensures state.Model() == old(state.Model()).ResetVelocity()
    {
      state.ResetVelocity();
      if ToMillis(now - start) >= assessmentMs {
        finished := true;
      }
    }
  }

  class LandingTask {
    const state: DroneState
    var lastUpdate: TimePoint
    var finished: bool

    constructor (state: DroneState)
      ensures this.state == state && Landing(Model()) == NewLanding()
    {
      this.state := state;
      lastUpdate, finished := 0, false;
    }

    ghost function Model(): Descent
      reads this
    {
      Descent(lastUpdate, finished)
    }

    method OnEnter(now: TimePoint)
      modifies this
      ensures Model() == EnterDescent(old(Model()), now)
    {
      lastUpdate := now;
      finished := false;
    }

    method Run(now: TimePoint)
      modifies this, state
      ensures (Model(), state.Model()) == RunDescent(old(Model()), now, old(state.Model()))
    {
      var elapsed := ToSeconds(now - lastUpdate);
      lastUpdate := now;
      if state.z <= 0.0 {
        state.z := 0.0;
        state.ResetVelocity();
        finished := true;
        return;
      }
      state.z := state.z - DESCENT_SPEED * elapsed;
      state.vx := 0.0;
      state.vy := 0.0;
      state.vz := -DESCENT_SPEED;
      if state.z <= 0.0 {
        state.z := 0.0;
        state.ResetVelocity();
        finished := true;
      }
    }
  }

  class GoToTargetTask {
    const state: DroneState
    const targetX: real
    const targetY: real
    var lastUpdate: TimePoint
    var finished: bool

    constructor (state: DroneState, targetX: real, targetY: real)
      ensures this.state == state && GoToTarget(Model()) == NewGoToTarget(targetX, targetY)
    {
      this.state, this.targetX, this.targetY := state, targetX, targetY;
      lastUpdate, finished := 0, false;
    }

    ghost function Model(): Leg
      reads this
    {
      Leg(targetX, targetY, lastUpdate, finished)
    }

    method OnEnter(now: TimePoint)
      modifies this
      ensures Model() == EnterLeg(old(Model()), now)
    {
      lastUpdate := now;
      finished := false;
    }

    method Run(now: TimePoint, h: Hypot)
      modifies this, state
      ensures (Model(), state.Model()) == RunLeg(old(Model()), now, old(state.Model()), h)
    {
      var elapsed := ToSeconds(now - lastUpdate);
      lastUpdate := now;
      var arrived := MoveTowardTarget(state, h, targetX, targetY, HORIZONTAL_SPEED, ARRIVAL_TOLERANCE, elapsed);
      finished := arrived;
    }
  }

  class ScoutSearchTask {
    const state: DroneState
    const centerX: real
    const centerY: real
    const scanMs: int
    var lastUpdate: TimePoint
    var scanStart: TimePoint
    var regionReached: bool
    var finished: bool

    constructor (state: DroneState, centerX: real, centerY: real)
      ensures this.state == state && ScoutSearch(Model()) == NewScoutSearch(centerX, centerY)
    {
      this.state, this.centerX, this.centerY, scanMs := state, centerX, centerY, SCAN_MS;
      lastUpdate, scanStart := 0, 0;
      regionReached, finished := false, false;
    }

    ghost function Model(): Search
      reads this
    {
      Search(centerX, centerY, scanMs, lastUpdate, scanStart, regionReached, finished)
    }

    method OnEnter(now: TimePoint)
      modifies this
      ensures Model() == EnterSearch(old(Model()), now)
    {
      lastUpdate := now;
      regionReached := false;
      finished := false;
    }

    method Run(now: TimePoint, h: Hypot)
      modifies this, state
      ensures (Model(), state.Model()) == RunSearch(old(Model()), now, old(state.Model()), h)
    {
      var elapsed := ToSeconds(now - lastUpdate);
      lastUpdate := now;
      if !regionReached {
        var arrived := MoveTowardTarget(state, h, centerX, centerY, HORIZONTAL_SPEED, ARRIVAL_TOLERANCE, elapsed);
        regionReached := arrived;
        if regionReached {
          scanStart := now;
        }
        return;
      }
      state.ResetVelocity();
      if ToMillis(now - scanStart) >= scanMs {
        finished := true;
      }
    }
  }

  /** The vote collector; its std::map is walked in key order. */
  class ConsensusTask {
    const tx: uint32
    const timeoutMs: int
    var votes: map<uint8, Vote>
    var start: TimePoint
    var result: ConsensusResult
    var cancelledByTimeout: bool

    constructor (tx: uint32, expectedVoters: seq<uint8>)
      ensures Model() == Ballots.Open(tx, expectedVoters, Ballots.DEFAULT_TIMEOUT_MS)
    {
      this.tx, timeoutMs := tx, Ballots.DEFAULT_TIMEOUT_MS;
      start, result, cancelledByTimeout := 0, Undecided, false;
      new;
      votes := map[];
      for i := 0 to |expectedVoters|
        invariant votes == map v | v in expectedVoters[..i] :: Pending
        invariant start == 0 && result == Undecided && !cancelledByTimeout
      {
        assert expectedVoters[..i + 1] == expectedVoters[..i] + [expectedVoters[i]];
        votes := votes[expectedVoters[i] := Pending];
      }
      assert expectedVoters[..|expectedVoters|] == expectedVoters;
    }

    ghost function Model(): Ballots.Ballot
      reads this
    {
      Ballots.Ballot(tx, votes, timeoutMs, start, result, cancelledByTimeout)
    }

    method EvaluateResult()
      modifies this`result
      ensures Model() == Ballots.Evaluate(old(Model()))
    {
      for id := 0 to 256
        invariant forall v | v in votes && v < id :: votes[v] == Ack
      {
        if id in votes && votes[id] != Ack {
          return;
        }
      }
      result := Committed;
    }

    method OnEnter(now: TimePoint)
      modifies this`start, this`result, this`cancelledByTimeout
      ensures Model() == Ballots.Enter(old(Model()), now)
    {
      start := now;
      result := Undecided;
      cancelledByTimeout := false;
      if votes == map[] {
        result := Committed;
        return;
      }
      for id := 0 to 256
        invariant forall v | v in votes && v < id :: votes[v] != Nack
        invariant result == Undecided
      {
        if id in votes && votes[id] == Nack {
          result := Aborted;
          return;
        }
      }
      EvaluateResult();
    }

    method Run(now: TimePoint)
      modifies this`result, this`cancelledByTimeout
      ensures Model() == Ballots.Run(old(Model()), now)
    {
      if result != Undecided {
        return;
      }
      var elapsed := ToMillis(now - start);
      if elapsed < timeoutMs {
        return;
      }
      result := Aborted;
      cancelledByTimeout := true;
    }

    method OnVote(senderId: uint8, vote: Vote)
      modifies this`votes, this`result
      ensures Model() == Ballots.OnVote(old(Model()), Ballots.Cast(senderId, vote))
    {
      if result != Undecided {
        return;
      }
      if senderId !in votes {
        return;
      }
      votes := votes[senderId := vote];
      if vote == Nack {
        result := Aborted;
        return;
      }
      EvaluateResult();
    }
  }

  // ---------------------------------------------------------------------
  //  A pointer to a task of any kind
  // ---------------------------------------------------------------------

  datatype TaskRef =
    | IdleRef(idle: IdleTask)
    | VotingRef(voting: ConsensusTask)
    | FailSafeRef(failSafe: FailSafeTask)
    | LandingRef(landing: LandingTask)
    | GoToTargetRef(goTo: GoToTargetTask)
    | ScoutSearchRef(scout: ScoutSearchTask)
  {
    ghost function Obj(): object {
      match this
      case IdleRef(t) => t
      case VotingRef(t) => t
      case FailSafeRef(t) => t
      case LandingRef(t) => t
      case GoToTargetRef(t) => t
      case ScoutSearchRef(t) => t
    }

    /** The task flies on this state, or on none. */
    ghost predicate Shares(state: DroneState) {
      match this
      case IdleRef(t) => t.state == state
      case VotingRef(t) => true
      case FailSafeRef(t) => t.state == state
      case LandingRef(t) => t.state == state
      case GoToTargetRef(t) => t.state == state
      case ScoutSearchRef(t) => t.state == state
    }

    ghost function Model(): Task
      reads Obj()
    {
      match this
      case IdleRef(t) => Idle
      case VotingRef(t) => Voting(t.Model())
      case FailSafeRef(t) => FailSafe(t.Model())
      case LandingRef(t) => Landing(t.Model())
      case GoToTargetRef(t) => GoToTarget(t.Model())
      case ScoutSearchRef(t) => ScoutSearch(t.Model())
    }

    method OnEnter(now: TimePoint, ghost state: DroneState)
      requires Shares(state) && Obj() != state
      modifies Obj(), state
      ensures (Model(), state.Model()) == EnterTask(old(Model()), now, old(state.Model()))
    {
      match this
      case IdleRef(t) => t.OnEnter(now);
      case VotingRef(t) => t.OnEnter(now);
      case FailSafeRef(t) => t.OnEnter(now);
      case LandingRef(t) => t.OnEnter(now);
      case GoToTargetRef(t) => t.OnEnter(now);
      case ScoutSearchRef(t) => t.OnEnter(now);
    }

    method Run(now: TimePoint, h: Hypot, ghost state: DroneState)
      requires Shares(state) && Obj() != state
      modifies Obj(), state
      ensures (Model(), state.Model()) == RunTask(old(Model()), now, old(state.Model()), h)
    {
      match this
      case IdleRef(t) => t.Run(now);
      case VotingRef(t) => t.Run(now);
      case FailSafeRef(t) => t.Run(now);
      case LandingRef(t) => t.Run(now);
      case GoToTargetRef(t) => t.Run(now, h);
      case ScoutSearchRef(t) => t.Run(now, h);
    }

    /** is_finished. */
    predicate Done()
      reads Obj()
      ensures Done() == IsFinished(Model())
    {
      match this
      case IdleRef(t) => false
      case VotingRef(t) => t.result != Undecided
      case FailSafeRef(t) => t.finished
      case LandingRef(t) => t.finished
      case GoToTargetRef(t) => t.finished
      case ScoutSearchRef(t) => t.finished
    }

    function Type(): TaskType {
      match this
      case IdleRef(t) => IdleType
      case VotingRef(t) => ConsensusType
      case FailSafeRef(t) => FailSafeType
      case LandingRef(t) => LandingType
      case GoToTargetRef(t) => GoToTargetType
      case ScoutSearchRef(t) => ScoutSearchType
    }
  }

  /** TaskAllocationEngine: the task object an order asks of this node, if any. */
  method AllocateTask(order: TaskOrder, config: SwarmConfig, state: DroneState) returns (task: Option<TaskRef>)
    ensures task.None? <==> CreateTask(order, config).None?
    ensures task.Some? ==> && fresh(task.value.Obj()) && task.value.Shares(state)
                           && task.value.Model() == CreateTask(order, config).value
  {
    if !ConcernsThisNode(order, config) {
      return None;
    }
    match order.role {
      case Scout =>
        var scout := new ScoutSearchTask(state, order.x, order.y);
        return Some(ScoutSearchRef(scout));
      case Striker =>
        var goTo := new GoToTargetTask(state, order.x, order.y);
        return Some(GoToTargetRef(goTo));
    }
  }
}
