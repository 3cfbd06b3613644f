/** The values that travel between the nodes of the swarm, and the clock arithmetic they share. */
module SwarmTypes {

  datatype Option<+T> = None | Some(value: T)

  // ---------------------------------------------------------------------
  //  Machine integers
  // ---------------------------------------------------------------------

  const TWO_TO_THE_32: int := 0x1_0000_0000

  type uint8 = n: int | 0 <= n < 256
  type uint32 = n: int | 0 <= n < TWO_TO_THE_32

  /** Unsigned 32-bit addition: the sum is reduced modulo 2^32. */
  function AddWrapping(a: uint32, b: uint32): uint32 {
    (a + b) % TWO_TO_THE_32
  }

  // ---------------------------------------------------------------------
  //  steady_clock: integer nanoseconds, and the two ways it is read
  // ---------------------------------------------------------------------

  type TimePoint = int

  const NS_PER_MS: int := 1_000_000

  /** duration_cast to milliseconds: truncation toward zero. */
  function ToMillis(d: int): int {
    if d >= 0 then d / NS_PER_MS else -((-d) / NS_PER_MS)
  }

  /** duration<double>: the same difference in (fractional) seconds. */
  function ToSeconds(d: int): real {
    d as real / 1_000_000_000.0
  }

  /** A truncated elapsed time reaches a positive bound exactly when the untruncated one does. */
  lemma MillisReached(d: int, bound: int)
    requires bound > 0
    ensures ToMillis(d) >= bound <==> d >= bound * NS_PER_MS
  {
    if d >= 0 {
      assert d == NS_PER_MS * (d / NS_PER_MS) + d % NS_PER_MS;
    }
  }

  lemma SecondsAdd(a: int, b: int)
    ensures ToSeconds(a + b) == ToSeconds(a) + ToSeconds(b)
  {
  }

  lemma SecondsMonotone(a: int, b: int)
    ensures a <= b <==> ToSeconds(a) <= ToSeconds(b)
    ensures a < b <==> ToSeconds(a) < ToSeconds(b)
  {
  }

  // ---------------------------------------------------------------------
  //  Enumerations and messages
  // ---------------------------------------------------------------------

  datatype NodeType = DroneNode | GcsNode

  datatype DroneRole = Scout | Striker

  datatype TaskType = InitType | DiscoveryType | ConsensusType | IdleType | ScoutSearchType
                    | GoToTargetType | HoverType | FailSafeType | LandingType

  /** PENDING in a message marks a proposal; ACK and NACK are votes. */
  datatype Vote = Pending | Nack | Ack

  datatype ConsensusResult = Undecided | Committed | Aborted

  datatype ConsensusMessage = ConsensusMessage(tx: uint32, sender: uint8, vote: Vote, seqNum: uint32)

  datatype TaskOrder = TaskOrder(taskId: uint32, role: DroneRole, x: real, y: real)

  datatype Heartbeat = Heartbeat(droneId: uint8, nodeType: NodeType, role: DroneRole, currentTask: TaskType)

  /** Only the fields the peer table reads. */
  datatype Telemetry = Telemetry(droneId: uint8, seqNum: uint32)

  datatype Command = ConsensusCommand(message: ConsensusMessage) | OrderCommand(order: TaskOrder)

  datatype SwarmConfig = SwarmConfig(droneId: uint8, nodeType: NodeType, role: DroneRole, faultSilent: bool)

  const CRITICAL_BATTERY: uint8 := 15

  /** A node's own flight state. */
  datatype Flight = Flight(x: real, y: real, z: real, vx: real, vy: real, vz: real, battery: uint8) {
    function ResetVelocity(): Flight {
      this.(vx := 0.0, vy := 0.0, vz := 0.0)
    }

    predicate Still() {
      vx == 0.0 && vy == 0.0 && vz == 0.0
    }
  }
}
