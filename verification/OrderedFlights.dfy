/**
 From an order to the end of its mission: what a resting drone does with the one order that waits for
 it, with no assumption on the mission's own fields.
 */
module OrderedFlights {
  import opened SwarmTypes
  import opened Motion
  import opened Tasks
  import opened Engine
  import opened CommandDrain
  import opened MissionRuns
  import Decision
  import Lifecycle
  import Missions
  import QueueShape

  /** The orders among the commands that address this drone, in arrival order. */
  function OrdersFor(commands: seq<Command>, config: SwarmConfig): seq<TaskOrder> {
    if commands == [] then []
    else
      var c := commands[0];
      (if c.OrderCommand? && config.nodeType == DroneNode && c.order.role == config.role then [c.order] else [])
      + OrdersFor(commands[1..], config)
  }

  /** Between steps with nothing to do, and no emergency about to begin. */
  ghost predicate Resting(n: Node) {
    && DroneAtRest(n) && NoRisingEdge(n)
    && (n.queue == [] || (|n.queue| == 1 && n.queue[0].task.Idle?))
  }

  /** The mission of this order, entered at `now`: nothing flown, nothing scanned. */
  ghost predicate TakenUp(t: Task, order: TaskOrder, now: TimePoint) {
    match order.role
    case Striker => t == GoToTarget(Leg(order.x, order.y, now, false))
    case Scout => t.ScoutSearch? && t.search == Search(order.x, order.y, 5000, now, t.search.scanStart, false, false)
  }

  lemma {:induction false} OneOrderOneTask(commands: seq<Command>, config: SwarmConfig)
    ensures |OrderedTasks(commands, config)| == |OrdersFor(commands, config)|
    ensures forall i | 0 <= i < |OrdersFor(commands, config)| ::
              CreateTask(OrdersFor(commands, config)[i], config) == Some(OrderedTasks(commands, config)[i])
    decreases |commands|
  {
    if commands != [] {
      OneOrderOneTask(commands[1..], config);
      if commands[0].OrderCommand? {
        AllocationFulfilsOrder(commands[0].order, config);
      }
    }
  }

  lemma EnteredMission(order: TaskOrder, config: SwarmConfig, now: TimePoint, f: Flight)
    requires CreateTask(order, config).Some?
    ensures TakenUp(EnterTask(CreateTask(order, config).value, now, f).0, order, now)
    ensures EnterTask(CreateTask(order, config).value, now, f).1 == f
  {
  }

  /** A resting drone settles with an entered Idle as its whole queue. */
  lemma RestingSettles(n: Node, now: TimePoint)
    requires Resting(n)
    ensures var s := Settle(n, now);
            && |s.queue| == 1 && s.queue[0].task.Idle? && s.started
            && SamePlace(s.flight, n.flight) && s.flight.z == n.flight.z
            && (n.queue == [] ==> s.flight.Still())
            && s.commands == n.commands && s.config == n.config
            && QueueShape.AtRest(s)
  {
    QueueShape.SettleAtRest(n, now);
    SettleTakesRequest(n, now);
    SettleFrame(n, now);
  }

  /** With no order for it a resting drone goes on resting: Idle alone, the drone still and in its place. */
  lemma RestingStays(n: Node, now: TimePoint, h: Hypot)
    requires Resting(n) && OrdersFor(n.commands, n.config) == []
    ensures var m := Step(n, now, h);
            && |m.queue| == 1 && m.queue[0].task.Idle? && m.activeType == IdleType
            && m.flight.Still() && SamePlace(m.flight, n.flight) && m.flight.z == n.flight.z
            && DroneAtRest(m)
  {
    var s := Settle(n, now);
    RestingSettles(n, now);
    OneOrderOneTask(s.commands, s.config);
    DrainMeetsSpec(s);
    DrainFrame(s);
    QueueShape.StepAtRest(n, now, h);
    assert Drain(s).0.queue == s.queue + [] == s.queue;
    IdleRuns(Ready(n, now), now, h);
  }

  lemma IdleRuns(r: Node, now: TimePoint, h: Hypot)
    requires |r.queue| == 1 && r.queue[0].task.Idle?
    ensures var m := RunFront(r, now, h);
            && |m.queue| == 1 && m.queue[0].task.Idle? && m.flight == r.flight.ResetVelocity()
  {
  }

  /** After the commands: the mission alone, not yet entered. */
  lemma OrderDisplacesIdle(s: Node, order: TaskOrder)
    requires s.config.nodeType == DroneNode && QueueShape.AtRest(s) && |s.queue| == 1 && s.queue[0].task.Idle?
    requires OrdersFor(s.commands, s.config) == [order]
    ensures var d := Drain(s).0;
            && CreateTask(order, s.config).Some?
            && d.queue == [Slot(s.nextId, CreateTask(order, s.config).value, [])]
            && !d.started && d.flight == s.flight
  {
    OneOrderOneTask(s.commands, s.config);
    DrainMeetsSpec(s);
    DrainFrame(s);
    Lifecycle.DrainOrderly(s);
    assert OrdersFor(s.commands, s.config)[0] == order;
    assert OrderedTasks(s.commands, s.config) == [CreateTask(order, s.config).value];
    assert s.queue[1..] == [];
  }

  /** The state in which the mission gets its first run: entered at the step's time, the drone where it was. */
  lemma OrderTakenUp(n: Node, order: TaskOrder, now: TimePoint, h: Hypot) returns (id: nat, t: Task)
    requires Resting(n) && OrdersFor(n.commands, n.config) == [order]
    ensures TakenUp(t, order, now) && OnMission(Ready(n, now), id, t)
    ensures |Ready(n, now).queue| == 1
    ensures SamePlace(Ready(n, now).flight, n.flight) && Ready(n, now).flight.z == n.flight.z
  {
    var s := Settle(n, now);
    RestingSettles(n, now);
    OrderDisplacesIdle(s, order);
    var d := Drain(s).0;
    EnteredMission(order, n.config, now, d.flight);
    QueueShape.StepAtRest(n, now, h);
    StepFrame(n, now, h);
    id, t := s.nextId, EnterTask(CreateTask(order, n.config).value, now, d.flight).0;
  }

  // ---------------------------------------------------------------------
  //  Where the drone is, in the order's own terms
  // ---------------------------------------------------------------------

  function Distance(h: Hypot, f: Flight, order: TaskOrder): real {
    h(order.x - f.x, order.y - f.y)
  }

  /** Metres flown in this many nanoseconds, at 5 m/s. */
  function Flown(elapsed: int): real {
    5.0 * (elapsed as real / 1_000_000_000.0)
  }

  /** The point of the straight line from p to the order's coordinates reached after this time, and the velocity. */
  function CourseAt(h: Hypot, p: Flight, order: TaskOrder, elapsed: int): Flight
    requires Distance(h, p, order) > 0.0
  {
    var d := Distance(h, p, order);
    var share := Flown(elapsed) / d;
    Flight(p.x + (order.x - p.x) * share, p.y + (order.y - p.y) * share, p.z,
           5.0 * (order.x - p.x) / d, 5.0 * (order.y - p.y) / d, 0.0, p.battery)
  }

  /** Not there yet, and exactly on course: 5 m/s times the elapsed time along the line, moving along it. */
  ghost predicate FlyingTo(h: Hypot, f: Flight, p: Flight, order: TaskOrder, elapsed: int) {
    && 0.0 <= Flown(elapsed) < Distance(h, p, order)
    && f == CourseAt(h, p, order, elapsed).(battery := f.battery)
  }

  /** At rest within half a metre of the order's coordinates. */
  ghost predicate RestingAt(h: Hypot, f: Flight, order: TaskOrder) {
    Distance(h, f, order) <= 0.5 && f.Still()
  }

  ghost predicate CarriesOut(m: Node, order: TaskOrder) {
    m.queue != [] && Fulfils(m.queue[0].task, order)
  }

  lemma CourseInOrderTerms(h: Hypot, p: Flight, f: Flight, order: TaskOrder, from: TimePoint, last: TimePoint)
    requires Missions.EnRoute(h, p, f, order.x, order.y, from, last) && Distance(h, p, order) > 0.5
    requires Heading(h, p, f, order.x, order.y, HORIZONTAL_SPEED)
    requires last == from || Missions.Metres(from, last) < Distance(h, p, order)
    ensures FlyingTo(h, f, p, order, last - from)
  {
    var d := Distance(h, p, order);
    assert Missions.Metres(from, last) == Flown(last - from);
    assert last == from ==> Flown(last - from) == 0.0;
    Quotient(f.vx, d, 5.0 * (order.x - p.x));
    Quotient(f.vy, d, 5.0 * (order.y - p.y));
  }

  lemma Quotient(v: real, d: real, product: real)
    requires d > 0.0 && v * d == product
    ensures v == product / d
  {
  }

  // ---------------------------------------------------------------------
  //  A striker
  // ---------------------------------------------------------------------

  /** A move over no time at all: already there, or pointed at the target without having moved. */
  lemma MoveOverNoTime(h: Hypot, f: Flight, order: TaskOrder, now: TimePoint)
    requires IsHypot(h)
    ensures var m := MoveToward(h, f, order.x, order.y, HORIZONTAL_SPEED, ARRIVAL_TOLERANCE, ToSeconds(now - now));
            SetOut(h, f, m.flight, order, m.arrived)
  {
    Missions.LegStep(h, f, f, order.x, order.y, now, now, now);
    ArrivalIsClose(h, f, order.x, order.y, HORIZONTAL_SPEED, ARRIVAL_TOLERANCE, ToSeconds(now - now));
  }

  /** Where the drone was, at rest if that is near enough, otherwise moving toward the target. */
  ghost predicate SetOut(h: Hypot, f: Flight, g: Flight, order: TaskOrder, arrived: bool) {
    && SamePlace(g, f) && g.z == f.z
    && (arrived <==> Distance(h, g, order) <= 0.5)
    && (if arrived then g.Still() else Heading(h, g, g, order.x, order.y, HORIZONTAL_SPEED))
  }

  lemma LegOverNoTime(h: Hypot, f: Flight, order: TaskOrder, now: TimePoint)
    requires IsHypot(h)
    ensures var (l, g) := RunLeg(Leg(order.x, order.y, now, false), now, f, h);
            l == Leg(order.x, order.y, now, l.finished) && SetOut(h, f, g, order, l.finished)
  {
    MoveOverNoTime(h, f, order, now);
  }

  lemma SearchOverNoTime(h: Hypot, f: Flight, order: TaskOrder, now: TimePoint, scanStart: TimePoint)
    requires IsHypot(h)
    ensures var s := SearchOf(order, now, scanStart);
            var (s1, g) := RunSearch(s, now, f, h);
            && s1 == (if s1.reached then s.(reached := true, scanStart := now) else s)
            && SetOut(h, f, g, order, s1.reached)
  {
    MoveOverNoTime(h, f, order, now);
  }

  lemma SinglyQueued(r: Node, now: TimePoint, h: Hypot)
    requires |r.queue| == 1 && !r.queue[0].task.Voting?
    ensures IsFinished(RunTask(r.queue[0].task, now, r.flight, h).0) ==> RunFront(r, now, h).queue == []
  {
  }

  /** After the first run: already there, or on the way. */
  lemma StrikerSetsOut(n: Node, order: TaskOrder, now: TimePoint, h: Hypot) returns (id: nat)
    requires IsHypot(h) && Resting(n) && OrdersFor(n.commands, n.config) == [order] && order.role == Striker
    ensures var n1 := Step(n, now, h);
            && SamePlace(n1.flight, n.flight) && n1.flight.z == n.flight.z
            && (if Distance(h, n1.flight, order) <= 0.5 then n1.queue == [] && n1.flight.Still()
                else && OnMission(n1, id, GoToTarget(Leg(order.x, order.y, now, false)))
                     && Heading(h, n1.flight, n1.flight, order.x, order.y, HORIZONTAL_SPEED))
  {
    var t;
    id, t := OrderTakenUp(n, order, now, h);
    var r := Ready(n, now);
    RunFrontMission(r, id, t, now, h);
    QueueShape.StepAtRest(n, now, h);
    LegOverNoTime(h, r.flight, order, now);
    SinglyQueued(r, now, h);
  }

  /** What a striker has done after these actions, when the order was taken up at `from`. */
  ghost predicate StrikerUnderway(m: Node, p: Flight, order: TaskOrder, elapsed: int, h: Hypot) {
    CarriesOut(m, order) && FlyingTo(h, m.flight, p, order, elapsed)
  }

  lemma UnderwayInOrderTerms(n1: Node, m: Node, id: nat, order: TaskOrder, from: TimePoint, last: TimePoint, ran: bool,
                             h: Hypot)
    requires order.role == Striker && Distance(h, n1.flight, order) > 0.5
    requires Heading(h, n1.flight, n1.flight, order.x, order.y, HORIZONTAL_SPEED)
    requires InFlight(n1, m, id, Leg(order.x, order.y, from, false), from, last, ran, h)
    ensures StrikerUnderway(m, n1.flight, order, last - from, h)
  {
    CourseInOrderTerms(h, n1.flight, m.flight, order, from, last);
  }

  /** Action k is a tick that ended the flight: on the way before it, at rest at the target after it, in time. */
  ghost predicate StrikerArrives(n1: Node, order: TaskOrder, from: TimePoint, actions: seq<Action>, k: nat,
                                 gap: int, h: Hypot) {
    && k < |actions| && actions[k].Tick?
    && StrikerUnderway(Execute(n1, actions[..k], h), n1.flight, order, LastTick(from, actions[..k]) - from, h)
    && RestingAt(h, Execute(n1, actions[..k + 1], h).flight, order)
    && Flown(actions[k].now - from) <= Distance(h, n1.flight, order) + Flown(gap)
  }

  lemma {:induction false} GapBefore(from: TimePoint, actions: seq<Action>, gap: int, k: nat)
    requires TickGaps(from, actions, gap) && k < |actions| && actions[k].Tick?
    ensures actions[k].now <= LastTick(from, actions[..k]) + gap
    decreases |actions|
  {
    var front := actions[..|actions| - 1];
    if k < |front| {
      GapBefore(from, front, gap, k);
      assert front[..k] == actions[..k];
    }
  }

  /**
   A striker, from the order to its target.  A resting drone with one order for it takes it up at its
   next step, at `from`, without moving.  If the target is within half a metre it is done.  Otherwise,
   over every run without a new emergency: it is on the straight line from there, exactly 5 m/s times
   the time since `from` along it and moving along it; or a tick no later than the flight time plus one
   gap has ended the flight, at rest within half a metre of the ordered coordinates.
   */
  lemma OrderedStrikerFlies(n: Node, order: TaskOrder, from: TimePoint, actions: seq<Action>, gap: int, h: Hypot)
      returns (arrived: Option<nat>)
    requires IsHypot(h) && Resting(n) && OrdersFor(n.commands, n.config) == [order] && order.role == Striker
    requires Decision.Undisturbed(Step(n, from, h), actions, h) && Timely(from, actions)
    requires gap >= 0 && TickGaps(from, actions, gap)
    ensures var n1 := Step(n, from, h);
            && SamePlace(n1.flight, n.flight) && n1.flight.z == n.flight.z
            && (Distance(h, n1.flight, order) <= 0.5 ==> n1.queue == [] && n1.flight.Still())
            && (Distance(h, n1.flight, order) > 0.5 && arrived.None? ==>
                  StrikerUnderway(Execute(n1, actions, h), n1.flight, order, LastTick(from, actions) - from, h))
            && (Distance(h, n1.flight, order) > 0.5 && arrived.Some? ==>
                  StrikerArrives(n1, order, from, actions, arrived.value, gap, h))
  {
    var id := StrikerSetsOut(n, order, from, h);
    arrived := None;
    if Distance(h, Step(n, from, h).flight, order) > 0.5 {
      arrived := StrikerOnTheWay(Step(n, from, h), id, order, from, actions, gap, h);
    }
  }

  lemma StrikerOnTheWay(n1: Node, id: nat, order: TaskOrder, from: TimePoint, actions: seq<Action>, gap: int, h: Hypot)
      returns (arrived: Option<nat>)
    requires IsHypot(h) && order.role == Striker && Distance(h, n1.flight, order) > 0.5
    requires OnMission(n1, id, GoToTarget(Leg(order.x, order.y, from, false)))
    requires Heading(h, n1.flight, n1.flight, order.x, order.y, HORIZONTAL_SPEED)
    requires Decision.Undisturbed(n1, actions, h) && Timely(from, actions)
    requires gap >= 0 && TickGaps(from, actions, gap)
    ensures arrived.None? ==>
              StrikerUnderway(Execute(n1, actions, h), n1.flight, order, LastTick(from, actions) - from, h)
    ensures arrived.Some? ==> StrikerArrives(n1, order, from, actions, arrived.value, gap, h)
  {
    arrived := LegInEveryRun(n1, id, Leg(order.x, order.y, from, false), from, actions, h);
    if arrived.None? {
      StrikerStillFlying(n1, id, order, from, actions, h);
    } else {
      HowItEnded(n1, id, Leg(order.x, order.y, from, false), from, actions, arrived.value, h);
      GapBefore(from, actions, gap, arrived.value);
      StrikerEnds(n1, id, order, from, actions, arrived.value, gap, h);
    }
  }

  lemma StrikerStillFlying(n1: Node, id: nat, order: TaskOrder, from: TimePoint, actions: seq<Action>, h: Hypot)
    requires order.role == Striker && Distance(h, n1.flight, order) > 0.5
    requires Heading(h, n1.flight, n1.flight, order.x, order.y, HORIZONTAL_SPEED)
    requires StillFlying(n1, id, Leg(order.x, order.y, from, false), from, actions, h)
    ensures StrikerUnderway(Execute(n1, actions, h), n1.flight, order, LastTick(from, actions) - from, h)
  {
    UnderwayInOrderTerms(n1, Execute(n1, actions, h), id, order, from, LastTick(from, actions),
                         TickTimes(actions) != [], h);
  }

  /** The parts of the statement that action k ended the leg. */
  lemma HowItEnded(n1: Node, id: nat, l: Leg, from: TimePoint, actions: seq<Action>, k: nat, h: Hypot)
    requires EndsAt(n1, id, l, from, actions, k, h)
    ensures k < |actions| && actions[k].Tick? && StillFlying(n1, id, l, from, actions[..k], h)
    ensures Ended(Execute(n1, actions[..k + 1], h), id, l, h)
  {
  }

  lemma StrikerEnds(n1: Node, id: nat, order: TaskOrder, from: TimePoint, actions: seq<Action>, k: nat, gap: int,
                    h: Hypot)
    requires order.role == Striker && Distance(h, n1.flight, order) > 0.5
    requires Heading(h, n1.flight, n1.flight, order.x, order.y, HORIZONTAL_SPEED)
    requires k < |actions| && actions[k].Tick? && actions[k].now <= LastTick(from, actions[..k]) + gap
    requires StillFlying(n1, id, Leg(order.x, order.y, from, false), from, actions[..k], h)
    requires Ended(Execute(n1, actions[..k + 1], h), id, Leg(order.x, order.y, from, false), h)
    ensures StrikerArrives(n1, order, from, actions, k, gap, h)
  {
    var front := actions[..k];
    StrikerStillFlying(n1, id, order, from, front, h);
    InTime(Execute(n1, front, h), n1.flight, order, from, LastTick(from, front), actions[k].now, gap, h);
    EndedAtRest(Execute(n1, actions[..k + 1], h), id, order, from, h);
  }

  lemma EndedAtRest(m: Node, id: nat, order: TaskOrder, from: TimePoint, h: Hypot)
    requires Ended(m, id, Leg(order.x, order.y, from, false), h)
    ensures RestingAt(h, m.flight, order)
  {
  }

  lemma InTime(m: Node, p: Flight, order: TaskOrder, from: TimePoint, last: TimePoint, now: TimePoint, gap: int,
               h: Hypot)
    requires StrikerUnderway(m, p, order, last - from, h) && now <= last + gap
    ensures Flown(now - from) <= Distance(h, p, order) + Flown(gap)
  {
    assert (now - from) as real <= (last - from) as real + gap as real;
  }

  // ---------------------------------------------------------------------
  //  A scout
  // ---------------------------------------------------------------------

  /** The search an order begins, as its theorems describe it; the scan's start means nothing before arrival. */
  function SearchOf(order: TaskOrder, now: TimePoint, scanStart: TimePoint): Search {
    Search(order.x, order.y, 5000, now, scanStart, false, false)
  }

  /** After the first run: scanning at once, or on the way. */
  lemma ScoutSetsOut(n: Node, order: TaskOrder, now: TimePoint, h: Hypot) returns (id: nat, s: Search)
    requires IsHypot(h) && Resting(n) && OrdersFor(n.commands, n.config) == [order] && order.role == Scout
    ensures var n1 := Step(n, now, h);
            && SamePlace(n1.flight, n.flight) && n1.flight.z == n.flight.z
            && s == SearchOf(order, now, s.scanStart) && Starting(n1, id, s, now, h)
            && (Scanning(n1, id, s, now, now, h) ==> Distance(h, n1.flight, order) <= 0.5)
            && (Approaching(n1, id, s, n1.flight, now, now, h) ==> SetOut(h, n1.flight, n1.flight, order, false))
  {
    var t;
    id, t := OrderTakenUp(n, order, now, h);
    s := t.search;
    var r, n1 := Ready(n, now), Step(n, now, h);
    RunFrontMission(r, id, t, now, h);
    QueueShape.StepAtRest(n, now, h);
    SearchOverNoTime(h, r.flight, order, now, s.scanStart);
    if Distance(h, n1.flight, order) <= 0.5 {
      assert Scanning(n1, id, s, now, now, h);
    } else {
      assert Approaching(n1, id, s, n1.flight, now, now, h);
    }
  }

  /** The scout is on the straight line from where it took the order up. */
  ghost predicate ScoutFlying(n1: Node, m: Node, order: TaskOrder, elapsed: int, h: Hypot) {
    CarriesOut(m, order) && FlyingTo(h, m.flight, n1.flight, order, elapsed)
  }

  /** `at` is the moment of arrival: the start itself, or a tick until which the scout was flying. */
  ghost predicate ReachedAt(n1: Node, order: TaskOrder, from: TimePoint, actions: seq<Action>, at: TimePoint,
                            h: Hypot) {
    || (at == from && Distance(h, n1.flight, order) <= 0.5)
    || (exists j :: FlewUntil(n1, order, from, actions, at, j, h))
  }

  ghost predicate FlewUntil(n1: Node, order: TaskOrder, from: TimePoint, actions: seq<Action>, at: TimePoint, j: int,
                            h: Hypot) {
    && 0 <= j < |actions| && actions[j] == Tick(at)
    && ScoutFlying(n1, Execute(n1, actions[..j], h), order, LastTick(from, actions[..j]) - from, h)
  }

  /** At rest at the centre since it was reached at `at`, less than five seconds before the last tick. */
  ghost predicate ScanningSince(n1: Node, order: TaskOrder, from: TimePoint, actions: seq<Action>, at: TimePoint,
                                h: Hypot) {
    var m := Execute(n1, actions, h);
    && CarriesOut(m, order) && RestingAt(h, m.flight, order)
    && at <= LastTick(from, actions) < at + 5_000_000_000
    && ReachedAt(n1, order, from, actions, at, h)
  }

  /** What a scout is doing after these actions, when the order was taken up at `from`. */
  ghost predicate ScoutUnderway(n1: Node, order: TaskOrder, from: TimePoint, actions: seq<Action>, gap: int, h: Hypot) {
    || ScoutFlying(n1, Execute(n1, actions, h), order, LastTick(from, actions) - from, h)
    || (exists at :: ScanningSince(n1, order, from, actions, at, h)
                     && Flown(at - from) <= Distance(h, n1.flight, order) + Flown(gap))
  }

  /** Action k is a tick that ended the mission: five seconds or more after the centre was reached, at rest there. */
  ghost predicate ScoutEnds(n1: Node, order: TaskOrder, from: TimePoint, actions: seq<Action>, k: nat, h: Hypot) {
    && k < |actions| && actions[k].Tick?
    && (exists at :: ScanningSince(n1, order, from, actions[..k], at, h) && actions[k].now >= at + 5_000_000_000)
    && RestingAt(h, Execute(n1, actions[..k + 1], h).flight, order)
  }

  // ---------------------------------------------------------------------
  //  From the fields of the search to these terms
  // ---------------------------------------------------------------------

  /** How the search of this order began. */
  ghost predicate Began(n1: Node, id: nat, s: Search, order: TaskOrder, from: TimePoint, h: Hypot) {
    && order.role == Scout && s == SearchOf(order, from, s.scanStart)
    && (Scanning(n1, id, s, from, from, h) ==> Distance(h, n1.flight, order) <= 0.5)
    && (Approaching(n1, id, s, n1.flight, from, from, h) ==> SetOut(h, n1.flight, n1.flight, order, false))
  }

  lemma ApproachInOrderTerms(n1: Node, m: Node, id: nat, s: Search, order: TaskOrder, from: TimePoint, last: TimePoint,
                             ran: bool, h: Hypot)
    requires Began(n1, id, s, order, from, h) && Approaching(n1, id, s, n1.flight, from, from, h)
    requires Approaching(m, id, s, n1.flight, from, last, h) && Moving(n1, m, s.x, s.y, ran, h)
    ensures ScoutFlying(n1, m, order, last - from, h)
  {
    CourseInOrderTerms(h, n1.flight, m.flight, order, from, last);
  }

  lemma PrefixInOrderTerms(n1: Node, id: nat, s: Search, order: TaskOrder, from: TimePoint, prefix: seq<Action>,
                           h: Hypot)
    requires Began(n1, id, s, order, from, h) && ApproachingUntil(n1, id, s, from, prefix, h)
    ensures ScoutFlying(n1, Execute(n1, prefix, h), order, LastTick(from, prefix) - from, h)
  {
    ApproachInOrderTerms(n1, Execute(n1, prefix, h), id, s, order, from, LastTick(from, prefix),
                         TickTimes(prefix) != [], h);
  }

  lemma ArrivalInOrderTerms(n1: Node, id: nat, s: Search, order: TaskOrder, from: TimePoint, actions: seq<Action>,
                            at: TimePoint, h: Hypot)
    requires Began(n1, id, s, order, from, h) && ArrivedAt(n1, id, s, from, actions, at, h)
    ensures ReachedAt(n1, order, from, actions, at, h)
  {
    if !(at == from && Scanning(n1, id, s, from, from, h)) {
      var j := HowItArrived(n1, id, s, from, actions, at, h);
      FlewInOrderTerms(n1, id, s, order, from, actions, at, j, h);
    }
  }

  lemma HowItArrived(n1: Node, id: nat, s: Search, from: TimePoint, actions: seq<Action>, at: TimePoint, h: Hypot)
      returns (j: nat)
    requires ArrivedAt(n1, id, s, from, actions, at, h) && !(at == from && Scanning(n1, id, s, from, from, h))
    ensures j < |actions| && actions[j] == Tick(at) && ApproachingUntil(n1, id, s, from, actions[..j], h)
  {
    j :| ArrivedBy(n1, id, s, from, actions, at, j, h);
  }

  lemma FlewInOrderTerms(n1: Node, id: nat, s: Search, order: TaskOrder, from: TimePoint, actions: seq<Action>,
                         at: TimePoint, j: nat, h: Hypot)
    requires Began(n1, id, s, order, from, h)
    requires j < |actions| && actions[j] == Tick(at) && ApproachingUntil(n1, id, s, from, actions[..j], h)
    ensures FlewUntil(n1, order, from, actions, at, j, h)
  {
    PrefixInOrderTerms(n1, id, s, order, from, actions[..j], h);
  }

  lemma RestInOrderTerms(m: Node, id: nat, s: Search, order: TaskOrder, from: TimePoint, at: TimePoint, last: TimePoint,
                         h: Hypot)
    requires order.role == Scout && s == SearchOf(order, from, s.scanStart) && Scanning(m, id, s, at, last, h)
    ensures CarriesOut(m, order) && RestingAt(h, m.flight, order) && at <= last < at + 5_000_000_000
  {
  }

  lemma ScanInOrderTerms(n1: Node, id: nat, s: Search, order: TaskOrder, from: TimePoint, actions: seq<Action>,
                         at: TimePoint, h: Hypot)
    requires Began(n1, id, s, order, from, h) && ArrivedAt(n1, id, s, from, actions, at, h)
    requires Scanning(Execute(n1, actions, h), id, s, at, LastTick(from, actions), h)
    ensures ScanningSince(n1, order, from, actions, at, h)
  {
    RestInOrderTerms(Execute(n1, actions, h), id, s, order, from, at, LastTick(from, actions), h);
    ArrivalInOrderTerms(n1, id, s, order, from, actions, at, h);
  }

  lemma ScanTime(n1: Node, m: Node, id: nat, s: Search, from: TimePoint, last: TimePoint, ran: bool, gap: int, h: Hypot)
      returns (at: TimePoint)
    requires InSearch(n1, m, id, s, from, last, ran, gap, h) && !Approaching(m, id, s, n1.flight, from, last, h)
    ensures Scanning(m, id, s, at, last, h)
    ensures Flown(at - from) <= h(s.x - n1.flight.x, s.y - n1.flight.y) + Flown(gap)
  {
    at :| Scanning(m, id, s, at, last, h)
          && BegunInTime(HorizontalDistance(h, n1.flight.x, n1.flight.y, s.x, s.y), from, at, gap);
  }

  /** The two phases a search in front can be in. */
  lemma PhaseOfSearch(n1: Node, id: nat, s: Search, from: TimePoint, actions: seq<Action>, gap: int, h: Hypot)
      returns (at: Option<TimePoint>)
    requires StillSearching(n1, id, s, from, actions, gap, h)
    ensures at.None? ==> ApproachingUntil(n1, id, s, from, actions, h)
    ensures at.Some? ==> && Scanning(Execute(n1, actions, h), id, s, at.value, LastTick(from, actions), h)
                         && ArrivedAt(n1, id, s, from, actions, at.value, h)
                         && Flown(at.value - from) <= h(s.x - n1.flight.x, s.y - n1.flight.y) + Flown(gap)
  {
    var m, last := Execute(n1, actions, h), LastTick(from, actions);
    if Approaching(m, id, s, n1.flight, from, last, h) {
      at := None;
    } else {
      var since := ScanTime(n1, m, id, s, from, last, TickTimes(actions) != [], gap, h);
      at := Some(since);
    }
  }

  lemma ScanUnderway(n1: Node, id: nat, s: Search, order: TaskOrder, from: TimePoint, actions: seq<Action>,
                     at: TimePoint, gap: int, h: Hypot)
    requires Began(n1, id, s, order, from, h) && ArrivedAt(n1, id, s, from, actions, at, h)
    requires Scanning(Execute(n1, actions, h), id, s, at, LastTick(from, actions), h)
    requires Flown(at - from) <= Distance(h, n1.flight, order) + Flown(gap)
    ensures ScoutUnderway(n1, order, from, actions, gap, h)
  {
    ScanInOrderTerms(n1, id, s, order, from, actions, at, h);
    SinceIsUnderway(n1, order, from, actions, at, gap, h);
  }

  lemma SinceIsUnderway(n1: Node, order: TaskOrder, from: TimePoint, actions: seq<Action>, at: TimePoint, gap: int,
                        h: Hypot)
    requires ScanningSince(n1, order, from, actions, at, h)
    requires Flown(at - from) <= Distance(h, n1.flight, order) + Flown(gap)
    ensures ScoutUnderway(n1, order, from, actions, gap, h)
  {
  }

  lemma FlightUnderway(n1: Node, id: nat, s: Search, order: TaskOrder, from: TimePoint, actions: seq<Action>, gap: int,
                       h: Hypot)
    requires Began(n1, id, s, order, from, h) && ApproachingUntil(n1, id, s, from, actions, h)
    ensures ScoutUnderway(n1, order, from, actions, gap, h)
  {
    ApproachInOrderTerms(n1, Execute(n1, actions, h), id, s, order, from, LastTick(from, actions),
                         TickTimes(actions) != [], h);
  }

  lemma EndInOrderTerms(n1: Node, id: nat, s: Search, order: TaskOrder, from: TimePoint, actions: seq<Action>, k: nat,
                        h: Hypot)
    requires Began(n1, id, s, order, from, h) && SearchEndsAt(n1, id, s, from, actions, k, h)
    ensures ScoutEnds(n1, order, from, actions, k, h)
  {
    var at := EndedScan(n1, id, s, from, actions, k, h);
    ScanInOrderTerms(n1, id, s, order, from, actions[..k], at, h);
    RestedAtCentre(Execute(n1, actions[..k + 1], h), s, order, from, h);
  }

  lemma EndedScan(n1: Node, id: nat, s: Search, from: TimePoint, actions: seq<Action>, k: nat, h: Hypot)
      returns (at: TimePoint)
    requires SearchEndsAt(n1, id, s, from, actions, k, h)
    ensures Scanning(Execute(n1, actions[..k], h), id, s, at, LastTick(from, actions[..k]), h)
    ensures actions[k].now - at >= s.scanMs * NS_PER_MS && ArrivedAt(n1, id, s, from, actions[..k], at, h)
  {
    at :| && Scanning(Execute(n1, actions[..k], h), id, s, at, LastTick(from, actions[..k]), h)
          && actions[k].now - at >= s.scanMs * NS_PER_MS && ArrivedAt(n1, id, s, from, actions[..k], at, h);
  }

  lemma RestedAtCentre(m: Node, s: Search, order: TaskOrder, from: TimePoint, h: Hypot)
    requires s == SearchOf(order, from, s.scanStart) && AtCentre(m, s, h)
    ensures RestingAt(h, m.flight, order)
  {
  }

  /**
   A scout, from the order to the end of its scan.  A resting drone with one order for it takes it up
   at its next step, at `from`, without moving.  Over every run without a new emergency it is then on
   the straight line from there, exactly 5 m/s times the time since `from` along it and moving along it;
   or it has been at rest within half a metre of the ordered coordinates since the tick that reached
   them, no later than the flight time plus one gap, less than five seconds ago; or a tick five seconds
   or more after that arrival has ended the mission there.
   */
  lemma OrderedScoutSearches(n: Node, order: TaskOrder, from: TimePoint, actions: seq<Action>, gap: int, h: Hypot)
      returns (ended: Option<nat>)
    requires IsHypot(h) && Resting(n) && OrdersFor(n.commands, n.config) == [order] && order.role == Scout
    requires Decision.Undisturbed(Step(n, from, h), actions, h) && Timely(from, actions)
    requires gap >= 0 && TickGaps(from, actions, gap)
    ensures var n1 := Step(n, from, h);
            && SamePlace(n1.flight, n.flight) && n1.flight.z == n.flight.z
            && (ended.None? ==> ScoutUnderway(n1, order, from, actions, gap, h))
            && (ended.Some? ==> ScoutEnds(n1, order, from, actions, ended.value, h))
  {
    var id, s := ScoutSetsOut(n, order, from, h);
    ended := ScoutOnTheWay(Step(n, from, h), id, s, order, from, actions, gap, h);
  }

  lemma ScoutOnTheWay(n1: Node, id: nat, s: Search, order: TaskOrder, from: TimePoint, actions: seq<Action>, gap: int,
                      h: Hypot) returns (ended: Option<nat>)
    requires IsHypot(h) && Began(n1, id, s, order, from, h) && Starting(n1, id, s, from, h) && gap >= 0
    requires Decision.Undisturbed(n1, actions, h) && Timely(from, actions) && TickGaps(from, actions, gap)
    ensures ended.None? ==> ScoutUnderway(n1, order, from, actions, gap, h)
    ensures ended.Some? ==> ScoutEnds(n1, order, from, actions, ended.value, h)
  {
    FreshSearch(n1, id, s, order, from, h);
    ended := SearchInEveryRun(n1, id, s, from, actions, gap, h);
    if ended.Some? {
      EndInOrderTerms(n1, id, s, order, from, actions, ended.value, h);
    } else {
      StillUnderway(n1, id, s, order, from, actions, gap, h);
    }
  }

  lemma FreshSearch(n1: Node, id: nat, s: Search, order: TaskOrder, from: TimePoint, h: Hypot)
    requires Began(n1, id, s, order, from, h)
    ensures !s.finished && !s.reached && s.scanMs > 0 && s.x == order.x && s.y == order.y
  {
  }

  lemma StillUnderway(n1: Node, id: nat, s: Search, order: TaskOrder, from: TimePoint, actions: seq<Action>, gap: int,
                      h: Hypot)
    requires Began(n1, id, s, order, from, h) && s.x == order.x && s.y == order.y
    requires StillSearching(n1, id, s, from, actions, gap, h)
    ensures ScoutUnderway(n1, order, from, actions, gap, h)
  {
    var at := PhaseOfSearch(n1, id, s, from, actions, gap, h);
    if at.None? {
      FlightUnderway(n1, id, s, order, from, actions, gap, h);
    } else {
      ScanUnderway(n1, id, s, order, from, actions, at.value, gap, h);
    }
  }
}
