/** Constant-speed horizontal flight toward a point, and its closed form. */
module Motion {
  import opened SwarmTypes

  const HORIZONTAL_SPEED: real := 5.0
  const ARRIVAL_TOLERANCE: real := 0.5

  /** std::hypot is foreign: it is a parameter, known only by the equation it solves. */
  type Hypot = (real, real) -> real

  ghost predicate IsHypot(h: Hypot) {
    forall dx: real, dy: real :: h(dx, dy) >= 0.0 && h(dx, dy) * h(dx, dy) == dx * dx + dy * dy
  }

  function HorizontalDistance(h: Hypot, x1: real, y1: real, x2: real, y2: real): real {
    h(x2 - x1, y2 - y1)
  }

  datatype Moved = Moved(flight: Flight, arrived: bool)

  function MoveToward(h: Hypot, f: Flight, targetX: real, targetY: real,
                      speed: real, tolerance: real, elapsed: real): Moved
    requires tolerance >= 0.0
  {
    var remaining := HorizontalDistance(h, f.x, f.y, targetX, targetY);
    if remaining <= tolerance then Moved(f.ResetVelocity(), true)
    else
      var step := speed * elapsed;
      if step >= remaining then Moved(f.(x := targetX, y := targetY).ResetVelocity(), true)
      else
        var dirX := (targetX - f.x) / remaining;
        var dirY := (targetY - f.y) / remaining;
        Moved(f.(x := f.x + dirX * step, y := f.y + dirY * step, vx := dirX * speed, vy := dirY * speed, vz := 0.0),
              false)
  }

  // ---------------------------------------------------------------------
  //  Geometry
  // ---------------------------------------------------------------------

  lemma RootIsUnique(a: real, b: real)
    requires a >= 0.0 && b >= 0.0 && a * a == b * b
    ensures a == b
  {
    var sum := a + b;
    assert (a - b) * sum == 0.0;
    if sum > 0.0 {
      assert a - b == ((a - b) * sum) / sum;
    }
  }

  /** Distances scale with the displacement. */
  lemma HypotScales(h: Hypot, k: real, dx: real, dy: real)
    requires IsHypot(h) && k >= 0.0
    ensures h(k * dx, k * dy) == k * h(dx, dy)
  {
    var d, e := h(dx, dy), h(k * dx, k * dy);
    calc {
      e * e;
      (k * dx) * (k * dx) + (k * dy) * (k * dy);
      (k * k) * (dx * dx + dy * dy);
      (k * k) * (d * d);
      (k * d) * (k * d);
    }
    RootIsUnique(e, k * d);
  }

  lemma HypotOfNothing(h: Hypot)
    requires IsHypot(h)
    ensures h(0.0, 0.0) == 0.0
  {
    HypotScales(h, 0.0, 0.0, 0.0);
  }

  /** f lies on the segment from f0 to the target, `travelled` metres after f0. */
  ghost predicate OnSegment(h: Hypot, f0: Flight, f: Flight, targetX: real, targetY: real, travelled: real) {
    var d := HorizontalDistance(h, f0.x, f0.y, targetX, targetY);
    && d > 0.0
    && f.x == f0.x + (targetX - f0.x) * (travelled / d)
    && f.y == f0.y + (targetY - f0.y) * (travelled / d)
  }

  /** The velocity points from f0 to the target, `speed` metres per second long, and is level. */
  ghost predicate Heading(h: Hypot, f0: Flight, f: Flight, targetX: real, targetY: real, speed: real) {
    var d := HorizontalDistance(h, f0.x, f0.y, targetX, targetY);
    f.vx * d == speed * (targetX - f0.x) && f.vy * d == speed * (targetY - f0.y) && f.vz == 0.0
  }

  /** On the segment the remaining distance is what has not been travelled yet. */
  lemma RemainingOnSegment(h: Hypot, f0: Flight, f: Flight, targetX: real, targetY: real, travelled: real)
    requires IsHypot(h) && OnSegment(h, f0, f, targetX, targetY, travelled)
    requires 0.0 <= travelled <= HorizontalDistance(h, f0.x, f0.y, targetX, targetY)
    ensures HorizontalDistance(h, f.x, f.y, targetX, targetY)
         == HorizontalDistance(h, f0.x, f0.y, targetX, targetY) - travelled
    ensures HorizontalDistance(h, f0.x, f0.y, f.x, f.y) == travelled
  {
    var dx, dy := targetX - f0.x, targetY - f0.y;
    var d := h(dx, dy);
    var u := travelled / d;
    assert 0.0 <= u <= 1.0 && u * d == travelled;
    var k := 1.0 - u;
    assert targetX - f.x == k * dx;
    assert targetY - f.y == k * dy;
    HypotScales(h, k, dx, dy);
    assert k * d == d - travelled;
    assert f.x - f0.x == u * dx;
    assert f.y - f0.y == u * dy;
    HypotScales(h, u, dx, dy);
  }

  /** One unfinished move advances along the segment by exactly speed times elapsed time. */
  lemma MoveAdvances(h: Hypot, f0: Flight, f: Flight, targetX: real, targetY: real,
                     travelled: real, speed: real, tolerance: real, elapsed: real)
    requires IsHypot(h) && OnSegment(h, f0, f, targetX, targetY, travelled)
    requires tolerance >= 0.0 && speed >= 0.0 && elapsed >= 0.0
    requires 0.0 <= travelled < HorizontalDistance(h, f0.x, f0.y, targetX, targetY)
    ensures var d := HorizontalDistance(h, f0.x, f0.y, targetX, targetY);
            var m := MoveToward(h, f, targetX, targetY, speed, tolerance, elapsed);
            && (m.arrived <==> d - travelled <= tolerance || travelled + speed * elapsed >= d)
            && (!m.arrived ==> && OnSegment(h, f0, m.flight, targetX, targetY, travelled + speed * elapsed)
                               && Heading(h, f0, m.flight, targetX, targetY, speed))
  {
    RemainingOnSegment(h, f0, f, targetX, targetY, travelled);
    var step := speed * elapsed;
    var m := MoveToward(h, f, targetX, targetY, speed, tolerance, elapsed);
    if !m.arrived {
      FurtherOnSegment(h, f0, f, m.flight, targetX, targetY, travelled, step);
      HeadsOnward(h, f0, f, m.flight, targetX, targetY, travelled, speed);
    }
  }

  lemma HeadsOnward(h: Hypot, f0: Flight, f: Flight, g: Flight, targetX: real, targetY: real,
                    travelled: real, speed: real)
    requires OnSegment(h, f0, f, targetX, targetY, travelled) && g.vz == 0.0
    requires var d := HorizontalDistance(h, f0.x, f0.y, targetX, targetY);
             && 0.0 <= travelled < d
             && g.vx == (targetX - f.x) / (d - travelled) * speed
             && g.vy == (targetY - f.y) / (d - travelled) * speed
    ensures Heading(h, f0, g, targetX, targetY, speed)
  {
    var d := HorizontalDistance(h, f0.x, f0.y, targetX, targetY);
    Direction(f0.x, targetX, f.x, travelled, d, speed);
    Direction(f0.y, targetY, f.y, travelled, d, speed);
  }

  /** On the segment the direction to the target is that of the whole segment. */
  lemma Direction(a0: real, target: real, a: real, travelled: real, d: real, speed: real)
    requires d > 0.0 && 0.0 <= travelled < d
    requires a == a0 + (target - a0) * (travelled / d)
    ensures (target - a) / (d - travelled) * speed * d == speed * (target - a0)
  {
    Share(a0, target, a, travelled, d);
    var q := (target - a) / (d - travelled);
    assert q * speed * d == speed * (q * d);
  }

  lemma Share(a0: real, target: real, a: real, travelled: real, d: real)
    requires d > 0.0 && 0.0 <= travelled < d
    requires a == a0 + (target - a0) * (travelled / d)
    ensures (target - a) / (d - travelled) * d == target - a0
  {
    var w := target - a0;
    var rem := d - travelled;
    var u := travelled / d;
    assert u * d == travelled;
    assert target - a == w * (1.0 - u);
    assert (1.0 - u) * d == rem;
    var q := (target - a) / rem;
    assert q * rem == w * (1.0 - u);
    assert (q * d - w) * rem == 0.0 by {
      assert q * d * rem == (q * rem) * d == w * ((1.0 - u) * d) == w * rem;
    }
  }

  lemma FurtherOnSegment(h: Hypot, f0: Flight, f: Flight, g: Flight, targetX: real, targetY: real,
                         travelled: real, step: real)
    requires OnSegment(h, f0, f, targetX, targetY, travelled)
    requires var d := HorizontalDistance(h, f0.x, f0.y, targetX, targetY);
             && 0.0 <= travelled < d
             && g.x == f.x + (targetX - f.x) / (d - travelled) * step
             && g.y == f.y + (targetY - f.y) / (d - travelled) * step
    ensures OnSegment(h, f0, g, targetX, targetY, travelled + step)
  {
    var d := HorizontalDistance(h, f0.x, f0.y, targetX, targetY);
    Advance(f0.x, targetX, f.x, travelled, d, step);
    Advance(f0.y, targetY, f.y, travelled, d, step);
  }

  /** The coordinate arithmetic of one step. */
  lemma Advance(a0: real, target: real, a: real, travelled: real, d: real, step: real)
    requires d > 0.0 && 0.0 <= travelled < d
    requires a == a0 + (target - a0) * (travelled / d)
    ensures a + (target - a) / (d - travelled) * step == a0 + (target - a0) * ((travelled + step) / d)
  {
    var w, u, q := target - a0, travelled / d, (target - a) / (d - travelled);
    Share(a0, target, a, travelled, d);
    assert u * d == travelled;
    var s := step / d;
    assert s * d == step;
    assert q * step == w * s by {
      assert q * step == q * (s * d) == (q * d) * s;
    }
    assert (travelled + step) / d == u + s by {
      assert (u + s) * d == travelled + step;
    }
  }

  /**
   A finished move ends within tolerance of the target, at rest: where it was if that was near enough,
   and exactly at the target otherwise.  Altitude and battery never change.
   */
  lemma ArrivalIsClose(h: Hypot, f: Flight, targetX: real, targetY: real,
                       speed: real, tolerance: real, elapsed: real)
    requires IsHypot(h) && tolerance >= 0.0
    ensures var m := MoveToward(h, f, targetX, targetY, speed, tolerance, elapsed);
            var near := HorizontalDistance(h, f.x, f.y, targetX, targetY) <= tolerance;
            && (m.arrived ==> && HorizontalDistance(h, m.flight.x, m.flight.y, targetX, targetY) <= tolerance
                              && m.flight.Still()
                              && (if near then m.flight.x == f.x && m.flight.y == f.y
                                  else m.flight.x == targetX && m.flight.y == targetY))
            && m.flight.z == f.z && m.flight.battery == f.battery
  {
    HypotOfNothing(h);
  }
}
