/**
 Left alone, a node finishes its work: with no further orders, vote requests or new emergencies,
 and a clock that advances by at least some positive amount between steps, the queue becomes [Idle]
 after finitely many steps and stays so.
 */
module QueueDrain {
  import opened SwarmTypes
  import opened Motion
  import opened Tasks
  import opened Engine
  import Ballots
  import Missions
  import QueueShape

  // ---------------------------------------------------------------------
  //  Work left in the front task
  // ---------------------------------------------------------------------

  /** Steps of at least `gap` that cover a span of time. */
  function Rounds(span: int, gap: int): nat
    requires gap > 0
  {
    if span <= 0 then 0 else span / gap + 1
  }

  lemma RoundsDecrease(span: int, less: int, gap: int)
    requires gap > 0 && less <= span - gap && span > 0
    ensures Rounds(less, gap) < Rounds(span, gap)
  {
    assert span == gap * (span / gap) + span % gap;
    if less > 0 {
      assert less == gap * (less / gap) + less % gap;
      QuotientOrder(less / gap, less % gap, span / gap, span % gap, gap);
    }
  }

  lemma QuotientOrder(p: int, r: int, q: int, s: int, gap: int)
    requires gap > 0 && 0 <= r < gap && 0 <= s < gap
    requires gap * p + r <= gap * q + s - gap
    ensures p < q
  {
    assert gap * (p - q) == gap * p - gap * q < 0;
  }

  /** Steps that each cover at least `unit` of a length. */
  function Strides(length: real, unit: real): nat
    requires unit > 0.0
  {
    if length <= 0.0 then 0 else (length / unit).Floor + 1
  }

  lemma StridesDecrease(length: real, less: real, unit: real)
    requires unit > 0.0 && less <= length - unit && length > 0.0
    ensures Strides(less, unit) < Strides(length, unit)
  {
    var difference := length - less;
    LessThanOne(difference / unit, unit);
    assert length / unit - less / unit == difference / unit;
    assert length / unit >= 0.0;
  }

  lemma LessThanOne(k: real, unit: real)
    requires unit > 0.0
    ensures k < 1.0 ==> k * unit < unit
  {
    if k < 1.0 {
      assert (1.0 - k) * unit > 0.0;
    }
  }

  /** The task's own time stamps are not in the future. */
  predicate Stamped(t: Task, last: TimePoint) {
    match t
    case Idle => true
    case Voting(b) => b.start <= last
    case FailSafe(a) => a.start <= last
    case Landing(d) => d.lastUpdate <= last
    case GoToTarget(l) => l.lastUpdate <= last
    case ScoutSearch(s) => s.lastUpdate <= last && (s.reached ==> s.scanStart <= last)
  }

  function Left(h: Hypot, f: Flight, x: real, y: real, gap: int): nat
    requires gap > 0
  {
    Strides(HorizontalDistance(h, f.x, f.y, x, y), Stride(gap))
  }

  function Stride(gap: int): (r: real)
    requires gap > 0
    ensures r > 0.0
  {
    HORIZONTAL_SPEED * ToSeconds(gap)
  }

  /** A bound on the steps the task still needs, when each comes at least `gap` after the last. */
  function Work(t: Task, f: Flight, last: TimePoint, gap: int, h: Hypot): nat
    requires gap > 0
  {
    match t
    case Idle => 0
    case Voting(b) => Rounds(b.start + b.timeoutMs * NS_PER_MS - last, gap)
    case FailSafe(a) => Rounds(a.start + a.durationMs * NS_PER_MS - last, gap)
    case Landing(_) => Strides(f.z, ToSeconds(gap))
    case GoToTarget(l) => Left(h, f, l.x, l.y, gap)
    case ScoutSearch(s) =>
      if s.reached then Rounds(s.scanStart + s.scanMs * NS_PER_MS - last, gap)
      else Left(h, f, s.x, s.y, gap) + Rounds(s.scanMs * NS_PER_MS, gap) + 1
  }

  // ---------------------------------------------------------------------
  //  A run that does not finish its task leaves less work
  // ---------------------------------------------------------------------

  lemma TimedWork(start: TimePoint, ms: int, last: TimePoint, now: TimePoint, gap: int)
    requires gap > 0 && start <= last && last + gap <= now && ToMillis(now - start) < ms
    ensures Rounds(start + ms * NS_PER_MS - now, gap) < Rounds(start + ms * NS_PER_MS - last, gap)
  {
    assert ms > 0;
    MillisReached(now - start, ms);
    RoundsDecrease(start + ms * NS_PER_MS - last, start + ms * NS_PER_MS - now, gap);
  }

  lemma FlightWork(h: Hypot, f: Flight, x: real, y: real, moved: TimePoint, last: TimePoint, now: TimePoint, gap: int)
    requires IsHypot(h) && gap > 0 && moved <= last && last + gap <= now
    ensures var m := MoveToward(h, f, x, y, HORIZONTAL_SPEED, ARRIVAL_TOLERANCE, ToSeconds(now - moved));
            !m.arrived ==> Left(h, m.flight, x, y, gap) < Left(h, f, x, y, gap)
  {
    var m := MoveToward(h, f, x, y, HORIZONTAL_SPEED, ARRIVAL_TOLERANCE, ToSeconds(now - moved));
    if !m.arrived {
      var d := HorizontalDistance(h, f.x, f.y, x, y);
      Missions.LegStep(h, f, f, x, y, moved, moved, now);
      var metres := Missions.Metres(moved, now);
      SecondsMonotone(0, now - moved);
      SecondsMonotone(gap, now - moved);
      RemainingOnSegment(h, f, m.flight, x, y, metres);
      StridesDecrease(d, d - metres, Stride(gap));
    }
  }

  lemma DescentWork(d: Descent, f: Flight, last: TimePoint, now: TimePoint, gap: int)
    requires gap > 0 && d.lastUpdate <= last && last + gap <= now
    ensures ToSeconds(gap) > 0.0
    ensures var (d', g) := RunDescent(d, now, f);
            !d'.finished ==> Strides(g.z, ToSeconds(gap)) < Strides(f.z, ToSeconds(gap))
  {
    var (d', g) := RunDescent(d, now, f);
    SecondsMonotone(0, gap);
    SecondsMonotone(gap, now - d.lastUpdate);
    if !d'.finished {
      StridesDecrease(f.z, g.z, ToSeconds(gap));
    }
  }

  lemma RunLeavesLessWork(t: Task, f: Flight, last: TimePoint, now: TimePoint, gap: int, h: Hypot)
    requires IsHypot(h) && gap > 0 && last + gap <= now && Stamped(t, last)
    ensures var (t', f') := RunTask(t, now, f, h);
            && Stamped(t', now)
            && (!t.Idle? && !IsFinished(t') ==> Work(t', f', now, gap, h) < Work(t, f, last, gap, h))
  {
    match t
    case Idle =>
    case Voting(b) =>
      if Ballots.Run(b, now).result == Undecided {
        TimedWork(b.start, b.timeoutMs, last, now, gap);
      }
    case FailSafe(a) =>
      if !RunAssessment(a, now).finished {
        TimedWork(a.start, a.durationMs, last, now, gap);
      }
    case Landing(d) => DescentWork(d, f, last, now, gap);
    case GoToTarget(l) => FlightWork(h, f, l.x, l.y, l.lastUpdate, last, now, gap);
    case ScoutSearch(s) =>
      if !s.reached {
        FlightWork(h, f, s.x, s.y, s.lastUpdate, last, now, gap);
      } else if !RunSearch(s, now, f, h).0.finished {
        TimedWork(s.scanStart, s.scanMs, last, now, gap);
      }
  }

  lemma EnteredIsStamped(t: Task, now: TimePoint, f: Flight)
    ensures Stamped(EnterTask(t, now, f).0, now)
  {
  }

  // ---------------------------------------------------------------------
  //  One round
  // ---------------------------------------------------------------------

  /** No waiting command is an order for this node. */
  ghost predicate NoOrders(n: Node) {
    forall c | c in n.commands :: c.OrderCommand? ==> CreateTask(c.order, n.config).None?
  }

  /** The same tasks; votes may have reached the collector in front. */
  ghost predicate SameWork(q: seq<Slot>, r: seq<Slot>) {
    && |q| == |r|
    && (forall i | 1 <= i < |q| :: q[i] == r[i])
    && (q != [] ==>
          || r[0].task == q[0].task
          || (q[0].task.Voting? && r[0].task.Voting?
              && q[0].task.ballot.start == r[0].task.ballot.start
              && q[0].task.ballot.timeoutMs == r[0].task.ballot.timeoutMs))
  }

  lemma CommandWithoutOrders(n: Node, c: Command)
    requires c.OrderCommand? ==> CreateTask(c.order, n.config).None?
    ensures var m := ProcessCommand(n, c).0;
            SameWork(n.queue, m.queue) && m.started == n.started && m.flight == n.flight && m.config == n.config
  {
  }

  lemma {:induction false} DrainWithoutOrders(n: Node)
    requires NoOrders(n)
    ensures var m := Drain(n).0;
            SameWork(n.queue, m.queue) && m.started == n.started && m.flight == n.flight && m.config == n.config
    decreases |n.commands|
  {
    if n.commands != [] {
      var c, rest := n.commands[0], n.(commands := n.commands[1..]);
      assert c in n.commands && forall d | d in rest.commands :: d in n.commands;
      CommandWithoutOrders(rest, c);
      DrainWithoutOrders(ProcessCommand(rest, c).0);
    }
  }

  /** Between steps, with its clock at `last`: entered front, stamps in the past. */
  ghost predicate Working(n: Node, last: TimePoint) {
    && QueueShape.AtRest(n) && n.request == None
    && (n.queue != [] ==> Stamped(n.queue[0].task, last))
  }

  ghost predicate OnlyIdle(n: Node) {
    |n.queue| == 1 && n.queue[0].task.Idle?
  }

  lemma SettleKeepsQueue(n: Node, now: TimePoint)
    requires n.request == None && NoRisingEdge(n) && QueueShape.AtRest(n)
    ensures var s := Settle(n, now);
            && s.commands == n.commands && s.config == n.config && s.started
            && (if n.queue == [] then OnlyIdle(s) else s.queue == n.queue && s.flight == n.flight)
  {
  }

  lemma ConcludedQueue(n: Node, now: TimePoint, h: Hypot)
    requires n.queue != [] && n.started
    ensures var (t, f) := RunTask(n.queue[0].task, now, n.flight, h);
            var m := RunFront(n, now, h);
            && m.request == n.request
            && (if IsFinished(t)
                then |m.queue| < |n.queue| && (m.queue != [] ==> Stamped(m.queue[0].task, now))
                else && |m.queue| == |n.queue| && m.queue[0].task == t && m.flight == f)
  {
    var (t, f) := RunTask(n.queue[0].task, now, n.flight, h);
    var ran := Advanced(n, t, f);
    if IsFinished(t) {
      var exited := ExitFront(RecordOutcome(ran, t));
      if exited.queue != [] {
        EnteredIsStamped(exited.queue[0].task, now, exited.flight);
      }
    }
  }

  /** One step without orders: the queue gets shorter, or its front has less work, or it was idle. */
  lemma StepWorks(n: Node, last: TimePoint, now: TimePoint, gap: int, h: Hypot)
    requires IsHypot(h) && gap > 0 && Working(n, last) && NoOrders(n) && last + gap <= now
    requires NoRisingEdge(n)
    ensures var m := Step(n, now, h);
            && Working(m, now) && m.commands == []
            && (n.queue == [] || OnlyIdle(n) ==> OnlyIdle(m))
            && (n.queue != [] && !OnlyIdle(n) ==>
                  || |m.queue| < |n.queue|
                  || (|m.queue| == |n.queue|
                      && Work(m.queue[0].task, m.flight, now, gap, h) < Work(n.queue[0].task, n.flight, last, gap, h)))
  {
    QueueShape.StepAtRest(n, now, h);
    SettleKeepsQueue(n, now);
    var s := Settle(n, now);
    DrainWithoutOrders(s);
    ReadyIsDrained(n, now);
    var r := Ready(n, now);
    StepTakesAll(n, now, h);
    RunLeavesLessWork(r.queue[0].task, r.flight, last, now, gap, h);
    ConcludedQueue(r, now, h);
    NotIdleInFront(n);
  }

  /** An Idle front is the whole queue of a node at rest. */
  lemma NotIdleInFront(n: Node)
    requires QueueShape.AtRest(n)
    ensures n.queue != [] && n.queue[0].task.Idle? ==> OnlyIdle(n)
  {
  }

  lemma ReadyIsDrained(n: Node, now: TimePoint)
    requires var d := Drain(Settle(n, now)).0; d.queue != [] && d.started
    ensures Ready(n, now) == Drain(Settle(n, now)).0
  {
  }

  // ---------------------------------------------------------------------
  //  Every run
  // ---------------------------------------------------------------------

  /** What happens between two steps, and the time of the second. */
  datatype Round = Round(arrivals: seq<Action>, now: TimePoint)

  function Play(n: Node, r: Round, h: Hypot): Node {
    Step(Execute(n, r.arrivals, h), r.now, h)
  }

  function PlayAll(n: Node, rounds: nat -> Round, count: nat, h: Hypot): Node
    decreases count
  {
    if count == 0 then n else Play(PlayAll(n, rounds, count - 1, h), rounds(count - 1), h)
  }

  /** Arrivals that bring no work: anything but ticks, orders for this node, vote requests and pushed tasks. */
  ghost predicate Harmless(config: SwarmConfig, a: Action) {
    && !a.Tick? && !a.RequestConsensus? && !a.PushTask?
    && (a.AddCommand? && a.c.OrderCommand? ==> CreateTask(a.c.order, config).None?)
  }

  ghost predicate AllHarmless(config: SwarmConfig, actions: seq<Action>) {
    forall i | 0 <= i < |actions| :: Harmless(config, actions[i])
  }

  function ClockAfter(last: TimePoint, rounds: nat -> Round, count: nat): TimePoint {
    if count == 0 then last else rounds(count - 1).now
  }

  /** No more work arrives, no emergency begins, and the clock advances by at least `gap` each round. */
  ghost predicate LeftAlone(n: Node, last: TimePoint, rounds: nat -> Round, gap: int, h: Hypot) {
    forall k: nat :: Calm(n, last, rounds, gap, h, k)
  }

  ghost predicate Calm(n: Node, last: TimePoint, rounds: nat -> Round, gap: int, h: Hypot, k: nat) {
    && AllHarmless(n.config, rounds(k).arrivals)
    && NoRisingEdge(Execute(PlayAll(n, rounds, k, h), rounds(k).arrivals, h))
    && ClockAfter(last, rounds, k) + gap <= rounds(k).now
  }

  lemma {:induction false} ArrivalsChangeNoWork(n: Node, last: TimePoint, arrivals: seq<Action>, h: Hypot)
    requires Working(n, last) && NoOrders(n) && AllHarmless(n.config, arrivals)
    ensures var m := Execute(n, arrivals, h);
            && Working(m, last) && NoOrders(m)
            && m.queue == n.queue && m.config == n.config
            && m.flight == n.flight.(battery := m.flight.battery)
    decreases |arrivals|
  {
    if arrivals != [] {
      var front, a := arrivals[..|arrivals| - 1], arrivals[|arrivals| - 1];
      ArrivalsChangeNoWork(n, last, front, h);
      ArrivalChangesNoWork(Execute(n, front, h), last, a, h);
    }
  }

  lemma ArrivalChangesNoWork(n: Node, last: TimePoint, a: Action, h: Hypot)
    requires Working(n, last) && NoOrders(n) && Harmless(n.config, a)
    ensures var m := Act(n, a, h);
            && Working(m, last) && NoOrders(m)
            && m.queue == n.queue && m.config == n.config
            && m.flight == n.flight.(battery := m.flight.battery)
  {
    QueueShape.ActAtRest(n, a, h);
  }

  /** State and clock after `count` rounds. */
  ghost predicate Quieting(n: Node, last: TimePoint, rounds: nat -> Round, count: nat, h: Hypot) {
    var m := PlayAll(n, rounds, count, h);
    Working(m, ClockAfter(last, rounds, count)) && NoOrders(m) && m.config == n.config
  }

  lemma RoundWorks(n: Node, last: TimePoint, rounds: nat -> Round, gap: int, count: nat, h: Hypot)
    requires IsHypot(h) && gap > 0 && LeftAlone(n, last, rounds, gap, h) && Quieting(n, last, rounds, count, h)
    ensures Quieting(n, last, rounds, count + 1, h)
    ensures var m, m' := PlayAll(n, rounds, count, h), PlayAll(n, rounds, count + 1, h);
            var t, t' := ClockAfter(last, rounds, count), ClockAfter(last, rounds, count + 1);
            && (m.queue == [] || OnlyIdle(m) ==> OnlyIdle(m'))
            && (m.queue != [] && !OnlyIdle(m) ==>
                  || |m'.queue| < |m.queue|
                  || (|m'.queue| == |m.queue|
                      && Work(m'.queue[0].task, m'.flight, t', gap, h) < Work(m.queue[0].task, m.flight, t, gap, h)))
  {
    var m, r, t := PlayAll(n, rounds, count, h), rounds(count), ClockAfter(last, rounds, count);
    assert Calm(n, last, rounds, gap, h, count);
    ArrivalsChangeNoWork(m, t, r.arrivals, h);
    var before := Execute(m, r.arrivals, h);
    StepWorks(before, t, r.now, gap, h);
    StepFrame(before, r.now, h);
  }

  function WorkOf(n: Node, last: TimePoint, gap: int, h: Hypot): nat
    requires gap > 0
  {
    if n.queue == [] then 0 else Work(n.queue[0].task, n.flight, last, gap, h)
  }

  lemma {:induction false} BecomesIdle(n: Node, last: TimePoint, rounds: nat -> Round, gap: int, count: nat, h: Hypot)
      returns (enough: nat)
    requires IsHypot(h) && gap > 0 && LeftAlone(n, last, rounds, gap, h) && Quieting(n, last, rounds, count, h)
    ensures enough >= count && Quieting(n, last, rounds, enough, h) && OnlyIdle(PlayAll(n, rounds, enough, h))
    decreases |PlayAll(n, rounds, count, h).queue|,
              WorkOf(PlayAll(n, rounds, count, h), ClockAfter(last, rounds, count), gap, h)
  {
    var m := PlayAll(n, rounds, count, h);
    RoundWorks(n, last, rounds, gap, count, h);
    if m.queue == [] || OnlyIdle(m) {
      enough := count + 1;
    } else {
      enough := BecomesIdle(n, last, rounds, gap, count + 1, h);
    }
  }

  ghost predicate IdleAt(n: Node, last: TimePoint, rounds: nat -> Round, count: nat, h: Hypot) {
    Quieting(n, last, rounds, count, h) && OnlyIdle(PlayAll(n, rounds, count, h))
  }

  lemma NextIdle(n: Node, last: TimePoint, rounds: nat -> Round, gap: int, count: nat, h: Hypot)
    requires IsHypot(h) && gap > 0 && LeftAlone(n, last, rounds, gap, h) && IdleAt(n, last, rounds, count, h)
    ensures IdleAt(n, last, rounds, count + 1, h)
  {
    RoundWorks(n, last, rounds, gap, count, h);
  }

  lemma {:induction false} StaysIdle(n: Node, last: TimePoint, rounds: nat -> Round, gap: int, from: nat, count: nat,
                                     h: Hypot)
    requires IsHypot(h) && gap > 0 && LeftAlone(n, last, rounds, gap, h)
    requires from <= count && IdleAt(n, last, rounds, from, h)
    ensures IdleAt(n, last, rounds, count, h)
    decreases count - from
  {
    if from < count {
      NextIdle(n, last, rounds, gap, from, h);
      StaysIdle(n, last, rounds, gap, from + 1, count, h);
    }
  }

  // ---------------------------------------------------------------------
  //  Every reachable state
  // ---------------------------------------------------------------------

  /** An entered front was last touched no later than `last`. */
  ghost predicate FrontStamped(n: Node, last: TimePoint) {
    n.queue != [] && n.started ==> Stamped(n.queue[0].task, last)
  }

  lemma PrepareStamped(n: Node, now: TimePoint)
    requires FrontStamped(n, now)
    ensures FrontStamped(Prepare(n, now), now)
  {
  }

  lemma SettleStamped(n: Node, last: TimePoint, now: TimePoint)
    requires FrontStamped(n, last) && last <= now
    ensures FrontStamped(Settle(n, now), now)
  {
    assert FrontStamped(HandleEmergency(ApplyRequest(n)), now);
    PrepareStamped(HandleEmergency(ApplyRequest(n)), now);
  }

  lemma {:induction false} DrainStamped(n: Node, now: TimePoint)
    requires FrontStamped(n, now) && n.queue != []
    ensures FrontStamped(Drain(n).0, now)
    decreases |n.commands|
  {
    if n.commands != [] {
      var rest := n.(commands := n.commands[1..]);
      DrainStamped(ProcessCommand(rest, n.commands[0]).0, now);
    }
  }

  lemma ConcludeStamped(n: Node, now: TimePoint)
    requires n.queue != [] && FrontStamped(n, now)
    ensures FrontStamped(Conclude(n, now), now)
  {
  }

  lemma StepStamped(n: Node, last: TimePoint, now: TimePoint, h: Hypot)
    requires FrontStamped(n, last) && last <= now
    ensures FrontStamped(Step(n, now, h), now)
  {
    SettleStamped(n, last, now);
    DrainStamped(Settle(n, now), now);
    PrepareStamped(Drain(Settle(n, now)).0, now);
    var r := Ready(n, now);
    var (t, f) := RunTask(r.queue[0].task, now, r.flight, h);
    ConcludeStamped(Advanced(r, t, f), now);
  }

  lemma {:induction false} ReachableStamped(config: SwarmConfig, battery: uint8, from: TimePoint,
                                            actions: seq<Action>, h: Hypot)
    requires QueueShape.OperationalRun(config, actions) && Timely(from, actions)
    ensures FrontStamped(Execute(Boot(config, battery), actions, h), LastTick(from, actions))
    decreases |actions|
  {
    if actions != [] {
      var front, a := actions[..|actions| - 1], actions[|actions| - 1];
      ReachableStamped(config, battery, from, front, h);
      if a.Tick? {
        StepStamped(Execute(Boot(config, battery), front, h), LastTick(from, front), a.now, h);
      } else {
        assert QueueShape.Operational(config, actions[|actions| - 1]);
      }
    }
  }

  // ---------------------------------------------------------------------
  //  The theorem
  // ---------------------------------------------------------------------

  /** The first step takes up whatever was still waiting; from then on the queue only works itself off. */
  lemma FirstRound(n: Node, last: TimePoint, arrivals: seq<Action>, now: TimePoint, h: Hypot)
    requires QueueShape.AtRest(n) && FrontStamped(n, last) && last <= now && AllHarmless(n.config, arrivals)
    ensures var m := Play(n, Round(arrivals, now), h);
            Working(m, now) && NoOrders(m) && m.config == n.config
  {
    var before := Execute(n, arrivals, h);
    HarmlessAtRest(n, last, arrivals, h);
    QueueShape.StepAtRest(before, now, h);
    StepStamped(before, last, now, h);
    StepTakesAll(before, now, h);
  }

  lemma {:induction false} HarmlessAtRest(n: Node, last: TimePoint, arrivals: seq<Action>, h: Hypot)
    requires QueueShape.AtRest(n) && FrontStamped(n, last) && AllHarmless(n.config, arrivals)
    ensures var m := Execute(n, arrivals, h);
            QueueShape.AtRest(m) && FrontStamped(m, last) && m.config == n.config
    decreases |arrivals|
  {
    if arrivals != [] {
      var front, a := arrivals[..|arrivals| - 1], arrivals[|arrivals| - 1];
      HarmlessAtRest(n, last, front, h);
      QueueShape.ActAtRest(Execute(n, front, h), a, h);
    }
  }

  /**
   Queue drain.  From any state a drone or the station can reach in operation, with whatever it
   still has to do: if from then on no order for it, vote request or new emergency arrives and the
   clock advances by at least `gap` between steps, its queue is [Idle] after finitely many steps
   and after every later one.
   */
  lemma QueueDrains(config: SwarmConfig, battery: uint8, from: TimePoint, actions: seq<Action>,
                    rounds: nat -> Round, gap: int, h: Hypot) returns (enough: nat)
    requires IsHypot(h) && gap > 0
    requires QueueShape.OperationalRun(config, actions) && Timely(from, actions)
    requires LeftAlone(Execute(Boot(config, battery), actions, h), LastTick(from, actions), rounds, gap, h)
    ensures forall k: nat | k >= enough :: OnlyIdle(PlayAll(Execute(Boot(config, battery), actions, h), rounds, k, h))
  {
    var n, last := Execute(Boot(config, battery), actions, h), LastTick(from, actions);
    QueueShape.QueueShapeOverRuns(config, battery, actions, h);
    ReachableStamped(config, battery, from, actions, h);
    assert Calm(n, last, rounds, gap, h, 0);
    FirstRound(n, last, rounds(0).arrivals, rounds(0).now, h);
    assert PlayAll(n, rounds, 1, h) == Play(PlayAll(n, rounds, 0, h), rounds(0), h);
    enough := BecomesIdle(n, last, rounds, gap, 1, h);
    forall k: nat | k >= enough ensures OnlyIdle(PlayAll(n, rounds, k, h)) {
      StaysIdle(n, last, rounds, gap, enough, k, h);
    }
  }
}
