/** The ground station's proposer: one proposal at a time, published only after a unanimous vote. */
module Controller {
  import opened SwarmTypes
  import opened Engine

  datatype State = Resting | VotingState | TaskPublished | Cancelled

  datatype Proposer = Proposer(state: State, nextTx: uint32, activeTx: uint32, pendingOrder: TaskOrder)

  function New(): Proposer {
    Proposer(Resting, 1, 0, TaskOrder(0, Scout, 0.0, 0.0))
  }

  /** propose_task on the controller's own fields. */
  function Propose(c: Proposer, role: DroneRole, x: real, y: real): Proposer {
    Proposer(VotingState, AddWrapping(c.nextTx, 1), c.nextTx, TaskOrder(c.nextTx, role, x, y))
  }

  /** The proposal message that goes out. */
  function ProposalMessage(c: Proposer, stationId: uint8): ConsensusMessage {
    ConsensusMessage(c.nextTx, stationId, Pending, c.nextTx)
  }

  /** The outcome that decides the active transaction, if it has arrived. */
  predicate Answers(outcome: Option<VoteOutcome>, tx: uint32) {
    outcome.Some? && outcome.value.tx == tx
  }

  function StepController(c: Proposer, outcome: Option<VoteOutcome>): (Proposer, Option<TaskOrder>) {
    if c.state != VotingState || !Answers(outcome, c.activeTx) then (c, None)
    else match outcome.value.result
      case Committed => (c.(state := TaskPublished), Some(c.pendingOrder))
      case Aborted => (c.(state := Cancelled), None)
      case Undecided => (c, None)
  }

  function ConsumeResult(c: Proposer): Proposer {
    if c.state == TaskPublished || c.state == Cancelled then c.(state := Resting) else c
  }

  // ---------------------------------------------------------------------
  //  Transaction numbers
  // ---------------------------------------------------------------------

  datatype Target = Target(role: DroneRole, x: real, y: real)

  function ProposeAll(c: Proposer, targets: seq<Target>): Proposer
    decreases |targets|
  {
    if targets == [] then c
    else
      var t := targets[|targets| - 1];
      Propose(ProposeAll(c, targets[..|targets| - 1]), t.role, t.x, t.y)
  }

  lemma {:induction false} NumberOfProposal(targets: seq<Target>)
    ensures ProposeAll(New(), targets).nextTx == (1 + |targets|) % TWO_TO_THE_32
    ensures targets != [] ==> ProposeAll(New(), targets).activeTx == |targets| % TWO_TO_THE_32
    decreases |targets|
  {
    if targets != [] {
      NumberOfProposal(targets[..|targets| - 1]);
      SuccessorModulo(|targets|);
    }
  }

  lemma SuccessorModulo(n: nat)
    ensures (n % TWO_TO_THE_32 + 1) % TWO_TO_THE_32 == (1 + n) % TWO_TO_THE_32
  {
  }

  /** The i-th and j-th proposals share a transaction number exactly when they lie a multiple of 2^32 apart. */
  lemma NumbersRepeatAfterWrap(earlier: seq<Target>, later: seq<Target>)
    requires earlier != [] && earlier <= later
    ensures ProposeAll(New(), earlier).activeTx == ProposeAll(New(), later).activeTx
       <==> (|later| - |earlier|) % TWO_TO_THE_32 == 0
  {
    NumberOfProposal(earlier);
    NumberOfProposal(later);
    EqualModulo(|earlier|, |later|);
  }

  lemma EqualModulo(a: nat, b: nat)
    requires a <= b
    ensures a % TWO_TO_THE_32 == b % TWO_TO_THE_32 <==> (b - a) % TWO_TO_THE_32 == 0
  {
    var m := TWO_TO_THE_32;
    assert a == m * (a / m) + a % m && b == m * (b / m) + b % m;
    assert b - a == m * (b / m - a / m) + (b % m - a % m);
  }
}
