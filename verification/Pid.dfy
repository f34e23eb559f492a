/** The latency regulator of the candidate pool of `crates/contextra-adapt/src/pid.rs`, over the reals. */
module Pid {
  import opened Basics

  const MIN_POOL_SIZE: nat := 50
  const MAX_INTEGRAL: real := 100.0

  datatype Params = Params(kp: real, ki: real, kd: real, target: real, min: nat, max: nat)

  predicate Legal(p: Params) {
    MIN_POOL_SIZE <= p.min <= p.max
  }

  datatype State = State(pool: Option<nat>, integral: real, prevError: real)

  datatype Latency = Finite(ms: real) | NonFinite

  datatype Op =
    | Update(dt: real, latency: Latency)
    | AntiWindup(dt: real, latency: Latency, saturated: bool)
    | Reset

  function ClampInt(x: int, lo: int, hi: int): int {
    if x < lo then lo else if x > hi then hi else x
  }

  // Rounding half away from zero.
  function Round(x: real): int {
    if x >= 0.0 then (x + 0.5).Floor else -((-x + 0.5).Floor)
  }

  function PoolOf(p: Params, s: State): nat {
    if s.pool.Some? then s.pool.value else p.min
  }

  function Seconds(dt: real): (r: real)
    ensures 0.001 <= r <= 10.0
  {
    Clamp(dt, 0.001, 10.0)
  }

  function Integrated(s: State, error: real, dt: real): (r: real)
    ensures -MAX_INTEGRAL <= r <= MAX_INTEGRAL
  {
    Clamp(Added(s.integral, error, Seconds(dt)), -MAX_INTEGRAL, MAX_INTEGRAL)
  }

  function Added(integral: real, error: real, seconds: real): real {
    integral + error * seconds
  }

  function Control(p: Params, prevError: real, error: real, integral: real, dt: real): real {
    p.kp * error + p.ki * integral + p.kd * ((error - prevError) / Seconds(dt))
  }

  /** `update` */
  function Updated(p: Params, s: State, dt: real, latency: Latency): State
    requires Legal(p)
  {
    if latency.NonFinite? then s
    else
      var error := p.target - latency.ms;
      var candidate := Integrated(s, error, dt);
      var size := Round(PoolOf(p, s) as real + Control(p, s.prevError, error, candidate, dt));
      State(Some(ClampInt(size, p.min, p.max)), if p.min <= size <= p.max then candidate else s.integral, error)
  }

  /** `update_with_anti_windup` */
  function UpdatedAntiWindup(p: Params, s: State, dt: real, latency: Latency, saturated: bool): State
    requires Legal(p)
  {
    if latency.NonFinite? then s
    else
      var error := p.target - latency.ms;
      var integral := if saturated then s.integral else Integrated(s, error, dt);
      var size := Round(PoolOf(p, s) as real + Control(p, s.prevError, error, integral, dt));
      State(Some(ClampInt(size, p.min, p.max)), integral, error)
  }

  function Apply(p: Params, s: State, op: Op): State
    requires Legal(p)
  {
    match op
    case Update(dt, latency) => Updated(p, s, dt, latency)
    case AntiWindup(dt, latency, saturated) => UpdatedAntiWindup(p, s, dt, latency, saturated)
    case Reset => State(None, 0.0, 0.0)
  }

  function After(p: Params, s: State, ops: seq<Op>): State
    requires Legal(p)
  {
    if ops == [] then s else Apply(p, After(p, s, ops[..|ops| - 1]), ops[|ops| - 1])
  }

  class PidController {
    var kp: real
    var ki: real
    var kd: real
    var targetLatencyMs: real
    var minPoolSize: nat
    var maxPoolSize: nat
    var currentPoolSize: Option<nat>
    var integral: real
    var prevError: real

    function Tuning(): Params
      reads this
    {
      Params(kp, ki, kd, targetLatencyMs, minPoolSize, maxPoolSize)
    }

    function Snapshot(): State
      reads this
    {
      State(currentPoolSize, integral, prevError)
    }

    constructor (targetLatencyMs: real, minPoolSize: nat, maxPoolSize: nat, initialPool: Option<nat>)
      ensures Legal(Tuning()) && Bounded(Tuning(), Snapshot()) && Tuned(Tuning())
      ensures integral == 0.0 && prevError == 0.0 && kp == 0.5 && ki == 0.05 && kd == 0.1
      ensures this.targetLatencyMs == targetLatencyMs
      ensures this.minPoolSize == if minPoolSize < MIN_POOL_SIZE then MIN_POOL_SIZE else minPoolSize
      ensures this.maxPoolSize == if maxPoolSize < this.minPoolSize then this.minPoolSize else maxPoolSize
      ensures currentPoolSize == if initialPool.None? then None
        else Some(ClampInt(initialPool.value, this.minPoolSize, this.maxPoolSize))
    {
      var least := if minPoolSize < MIN_POOL_SIZE then MIN_POOL_SIZE else minPoolSize;
      var most := if maxPoolSize < least then least else maxPoolSize;
      currentPoolSize := if initialPool.Some? then Some(ClampInt(initialPool.value, least, most)) else None;
      kp, ki, kd := 0.5, 0.05, 0.1;
      this.targetLatencyMs, this.minPoolSize, this.maxPoolSize := targetLatencyMs, least, most;
      integral, prevError := 0.0, 0.0;
    }

    method Accumulated(dt: real, error: real) returns (sum: real)
      ensures sum == Integrated(Snapshot(), error, dt)
    {
      hide Added;
      var dtS := Clamp(dt, 0.001, 10.0);
      sum := Clamp(Added(integral, error, dtS), -MAX_INTEGRAL, MAX_INTEGRAL);
    }

    // The control signal, before the new error is remembered.
    method ControlSignal(dt: real, error: real, integral': real) returns (u: real)
      ensures u == Control(Tuning(), prevError, error, integral', dt)
    {
      var dtS := Clamp(dt, 0.001, 10.0);
      var derivative := (error - prevError) / dtS;
      u := kp * error + ki * integral' + kd * derivative;
    }

    method Update(dt: real, latency: Latency) returns (size: nat)
      requires Legal(Tuning())
      modifies this`currentPoolSize, this`integral, this`prevError
      ensures Snapshot() == Updated(Tuning(), old(Snapshot()), dt, latency)
      ensures size == PoolOf(Tuning(), Snapshot())
    {
      hide Control, Round, Integrated;
      var currentPool := if currentPoolSize.Some? then currentPoolSize.value else minPoolSize;
      if latency.NonFinite? {
        return currentPool;
      }
      var error := targetLatencyMs - latency.ms;
      var candidate := Accumulated(dt, error);
      var u := ControlSignal(dt, error, candidate);
      prevError := error;
      var newSize := Round(currentPool as real + u);
      if newSize >= minPoolSize && newSize <= maxPoolSize {
        integral := candidate;
      }
      var clamped := ClampInt(newSize, minPoolSize, maxPoolSize);
      currentPoolSize := Some(clamped);
      size := clamped;
    }

    method UpdateWithAntiWindup(dt: real, latency: Latency, saturated: bool) returns (size: nat)
      requires Legal(Tuning())
      modifies this`currentPoolSize, this`integral, this`prevError
      ensures Snapshot() == UpdatedAntiWindup(Tuning(), old(Snapshot()), dt, latency, saturated)
      ensures size == PoolOf(Tuning(), Snapshot())
    {
      hide Control, Round, Integrated;
      var currentPool := if currentPoolSize.Some? then currentPoolSize.value else minPoolSize;
      if latency.NonFinite? {
        return currentPool;
      }
      var error := targetLatencyMs - latency.ms;
      if !saturated {
        integral := Accumulated(dt, error);
      }
      var u := ControlSignal(dt, error, integral);
      prevError := error;
      var newSize := Round(currentPool as real + u);
      var clamped := ClampInt(newSize, minPoolSize, maxPoolSize);
      currentPoolSize := Some(clamped);
      size := clamped;
    }

    method ResetState()
      requires Legal(Tuning())
      modifies this`currentPoolSize, this`integral, this`prevError
      ensures Snapshot() == Apply(Tuning(), old(Snapshot()), Reset)
    {
      integral, prevError := 0.0, 0.0;
      currentPoolSize := None;
    }
  }

  // ---- Bounds -----------------------------------------------------------------------------------

  predicate Bounded(p: Params, s: State) {
    && -MAX_INTEGRAL <= s.integral <= MAX_INTEGRAL
    && (s.pool.Some? ==> p.min <= s.pool.value <= p.max)
  }

  /** Over any sequence of operations, under any gains, the pool stays between its bounds, of which the
      lower is at least 50, and the integral within 100 of zero. */
  lemma {:induction false} AlwaysBounded(p: Params, s: State, ops: seq<Op>)
    requires Legal(p) && Bounded(p, s)
    ensures var e := After(p, s, ops);
      Bounded(p, e) && MIN_POOL_SIZE <= p.min <= PoolOf(p, e) <= p.max
  {
    hide Control, Integrated, Round;
    if ops != [] {
      AlwaysBounded(p, s, ops[..|ops| - 1]);
    }
  }

  // ---- What one measurement does ----------------------------------------------------------------

  /** Rounding goes to the nearest whole number, and from the middle between two away from zero. */
  lemma RoundsToNearest(x: real)
    ensures -0.5 <= Round(x) as real - x <= 0.5
    ensures Round(x) as real - x == 0.5 ==> x > 0.0
    ensures Round(x) as real - x == -0.5 ==> x < 0.0
  {
  }

  /** The three parts of the control signal: for an error that has not changed it is kp times the error and ki times
      the integral, and a change adds kd times its rate over the clamped interval. */
  lemma ControlParts(p: Params, prevError: real, error: real, integral: real, dt: real)
    ensures Control(p, error, error, integral, dt) == p.kp * error + p.ki * integral
    ensures (Control(p, prevError, error, integral, dt) - Control(p, error, error, integral, dt)) * Seconds(dt) ==
      p.kd * (error - prevError)
  {
    var rate := (error - prevError) / Seconds(dt);
    assert rate * Seconds(dt) == error - prevError;
    assert p.kd * rate * Seconds(dt) == p.kd * (rate * Seconds(dt));
  }

  // The size the signal asks for, before it is clamped.
  function Asked(p: Params, s: State, dt: real, ms: real, integral: real): int {
    Round(PoolOf(p, s) as real + Control(p, s.prevError, p.target - ms, integral, dt))
  }

  /** The two variants agree on the pool as long as the actuator is not reported saturated.  They differ in what they
      remember: `update` takes the new integral over exactly when the size asked for is within the bounds, the
      other whenever it is not told of saturation; told of it, it holds the integral. */
  lemma TwoVariants(p: Params, s: State, dt: real, ms: real)
    requires Legal(p)
    ensures var error, u, a, h := p.target - ms, Updated(p, s, dt, Finite(ms)),
        UpdatedAntiWindup(p, s, dt, Finite(ms), false), UpdatedAntiWindup(p, s, dt, Finite(ms), true);
      var taken := Clamp(Added(s.integral, error, Clamp(dt, 0.001, 10.0)), -100.0, 100.0);
      && u.pool == a.pool && u.prevError == a.prevError == h.prevError == error
      && a.integral == taken && h.integral == s.integral
      && u.integral == (if p.min <= Asked(p, s, dt, ms, taken) <= p.max then taken else s.integral)
      && u.pool == Some(ClampInt(Asked(p, s, dt, ms, taken), p.min, p.max))
      && h.pool == Some(ClampInt(Asked(p, s, dt, ms, s.integral), p.min, p.max))
  {
    hide Control, Round, Integrated, Added;
    IntegratedIs(s, p.target - ms, dt);
  }

  lemma IntegratedIs(s: State, error: real, dt: real)
    ensures Integrated(s, error, dt) == Clamp(Added(s.integral, error, Clamp(dt, 0.001, 10.0)), -100.0, 100.0)
  {
    hide Added;
  }

  // Operations that leave the integral alone.
  predicate Holding(op: Op) {
    op.AntiWindup? && (op.saturated || op.latency.NonFinite?)
  }

  /** While the actuator is reported saturated the integral does not wind up, however long it lasts. */
  lemma {:induction false} HeldWhileSaturated(p: Params, s: State, ops: seq<Op>)
    requires Legal(p) && forall i :: 0 <= i < |ops| ==> Holding(ops[i])
    ensures After(p, s, ops).integral == s.integral
  {
    hide Control, Round;
    if ops != [] {
      HeldWhileSaturated(p, s, ops[..|ops| - 1]);
    }
  }

  // ---- Under steady pressure --------------------------------------------------------------------

  // At least the default proportional gain, and no gain working backwards.
  predicate Tuned(p: Params) {
    p.kp >= 0.5 && p.ki > 0.0 && p.kd >= 0.0
  }

  datatype Sample = Sample(dt: real, ms: real)

  // The state after the first `n` measurements.
  function Measured(p: Params, s: State, samples: seq<Sample>, n: nat): State
    requires Legal(p) && n <= |samples|
  {
    if n == 0 then s else Updated(p, Measured(p, s, samples, n - 1), samples[n - 1].dt, Finite(samples[n - 1].ms))
  }

  function PoolAt(p: Params, s: State, samples: seq<Sample>, n: nat): nat
    requires Legal(p) && n <= |samples|
  {
    PoolOf(p, Measured(p, s, samples, n))
  }

  predicate FreshState(p: Params, s: State) {
    Bounded(p, s) && s.integral == 0.0 && s.prevError == 0.0
  }

  // Latencies at least a millisecond over the target and never falling.
  predicate Overloaded(p: Params, samples: seq<Sample>) {
    && (forall i :: 0 <= i < |samples| ==> samples[i].ms >= p.target + 1.0)
    && (forall i :: 0 < i < |samples| ==> samples[i - 1].ms <= samples[i].ms)
  }

  // Latencies at least a millisecond under the target and never rising.
  predicate Underloaded(p: Params, samples: seq<Sample>) {
    && (forall i :: 0 <= i < |samples| ==> samples[i].ms <= p.target - 1.0)
    && (forall i :: 0 < i < |samples| ==> samples[i - 1].ms >= samples[i].ms)
  }

  // Proportional, integral and derivative part all push the same way, together by more than a half.
  lemma PushesDown(p: Params, s: State, error: real, dt: real)
    requires Tuned(p) && s.integral <= 0.0 && error <= -1.0 && error <= s.prevError
    ensures Integrated(s, error, dt) < 0.0
    ensures Control(p, s.prevError, error, Integrated(s, error, dt), dt) < -0.5
  {
  }

  lemma PushesUp(p: Params, s: State, error: real, dt: real)
    requires Tuned(p) && s.integral >= 0.0 && error >= 1.0 && error >= s.prevError
    ensures Integrated(s, error, dt) > 0.0
    ensures Control(p, s.prevError, error, Integrated(s, error, dt), dt) > 0.5
  {
  }

  lemma RoundsPast(n: nat, u: real)
    ensures u < -0.5 ==> Round(n as real + u) <= n - 1
    ensures u > 0.5 ==> Round(n as real + u) >= n + 1
  {
  }

  // One measurement under pressure.
  lemma Shrinks(p: Params, s: State, dt: real, ms: real)
    requires Legal(p) && Tuned(p) && Bounded(p, s) && s.integral <= 0.0
    requires ms >= p.target + 1.0 && p.target - ms <= s.prevError
    ensures var e := Updated(p, s, dt, Finite(ms));
      && Bounded(p, e) && e.integral <= 0.0 && e.prevError == p.target - ms
      && (PoolOf(p, s) > p.min ==> PoolOf(p, e) < PoolOf(p, s))
      && (PoolOf(p, s) == p.min ==> PoolOf(p, e) == p.min)
  {
    hide Control, Integrated, Round;
    PushesDown(p, s, p.target - ms, dt);
    RoundsPast(PoolOf(p, s), Control(p, s.prevError, p.target - ms, Integrated(s, p.target - ms, dt), dt));
  }

  lemma Grows(p: Params, s: State, dt: real, ms: real)
    requires Legal(p) && Tuned(p) && Bounded(p, s) && s.integral >= 0.0
    requires ms <= p.target - 1.0 && p.target - ms >= s.prevError
    ensures var e := Updated(p, s, dt, Finite(ms));
      && Bounded(p, e) && e.integral >= 0.0 && e.prevError == p.target - ms
      && (PoolOf(p, s) < p.max ==> PoolOf(p, e) > PoolOf(p, s))
      && (PoolOf(p, s) == p.max ==> PoolOf(p, e) == p.max)
  {
    hide Control, Integrated, Round;
    PushesUp(p, s, p.target - ms, dt);
    RoundsPast(PoolOf(p, s), Control(p, s.prevError, p.target - ms, Integrated(s, p.target - ms, dt), dt));
  }

  lemma {:induction false} PressedDown(p: Params, s: State, samples: seq<Sample>, n: nat)
    requires Legal(p) && Tuned(p) && FreshState(p, s) && Overloaded(p, samples) && n <= |samples|
    ensures var e := Measured(p, s, samples, n);
      && Bounded(p, e) && e.integral <= 0.0 && (n == 0 ==> e.prevError == 0.0)
      && (n > 0 ==> e.prevError == p.target - samples[n - 1].ms)
      && (PoolOf(p, e) == p.min || PoolOf(p, e) + n <= PoolOf(p, s))
  {
    hide Updated;
    if n > 0 {
      PressedDown(p, s, samples, n - 1);
      Shrinks(p, Measured(p, s, samples, n - 1), samples[n - 1].dt, samples[n - 1].ms);
    }
  }

  lemma {:induction false} PressedUp(p: Params, s: State, samples: seq<Sample>, n: nat)
    requires Legal(p) && Tuned(p) && FreshState(p, s) && Underloaded(p, samples) && n <= |samples|
    ensures var e := Measured(p, s, samples, n);
      && Bounded(p, e) && e.integral >= 0.0 && (n == 0 ==> e.prevError == 0.0)
      && (n > 0 ==> e.prevError == p.target - samples[n - 1].ms)
      && (PoolOf(p, e) == p.max || PoolOf(p, e) >= PoolOf(p, s) + n)
  {
    hide Updated;
    if n > 0 {
      PressedUp(p, s, samples, n - 1);
      Grows(p, Measured(p, s, samples, n - 1), samples[n - 1].dt, samples[n - 1].ms);
    }
  }

  /** From a fresh controller, latencies that stay over the target and do not fall shrink the pool with every
      measurement down to its floor, which is reached within as many measurements as there are places above
      it, and held. */
  lemma ReachesFloor(p: Params, s: State, samples: seq<Sample>)
    requires Legal(p) && Tuned(p) && FreshState(p, s) && Overloaded(p, samples)
    ensures forall n: nat :: n < |samples| && PoolAt(p, s, samples, n) > p.min ==>
      PoolAt(p, s, samples, n + 1) < PoolAt(p, s, samples, n)
    ensures forall n: nat :: PoolOf(p, s) - p.min <= n <= |samples| ==> PoolAt(p, s, samples, n) == p.min
  {
    hide Updated;
    forall n: nat | n < |samples| && PoolAt(p, s, samples, n) > p.min
      ensures PoolAt(p, s, samples, n + 1) < PoolAt(p, s, samples, n)
    {
      PressedDown(p, s, samples, n);
      Shrinks(p, Measured(p, s, samples, n), samples[n].dt, samples[n].ms);
    }
    forall n: nat | PoolOf(p, s) - p.min <= n <= |samples| ensures PoolAt(p, s, samples, n) == p.min {
      PressedDown(p, s, samples, n);
    }
  }

  /** And the other way round for the ceiling. */
  lemma ReachesCeiling(p: Params, s: State, samples: seq<Sample>)
    requires Legal(p) && Tuned(p) && FreshState(p, s) && Underloaded(p, samples)
    ensures forall n: nat :: n < |samples| && PoolAt(p, s, samples, n) < p.max ==>
      PoolAt(p, s, samples, n + 1) > PoolAt(p, s, samples, n)
    ensures forall n: nat :: p.max - PoolOf(p, s) <= n <= |samples| ==> PoolAt(p, s, samples, n) == p.max
  {
    hide Updated;
    forall n: nat | n < |samples| && PoolAt(p, s, samples, n) < p.max
      ensures PoolAt(p, s, samples, n + 1) > PoolAt(p, s, samples, n)
    {
      PressedUp(p, s, samples, n);
      Grows(p, Measured(p, s, samples, n), samples[n].dt, samples[n].ms);
    }
    forall n: nat | p.max - PoolOf(p, s) <= n <= |samples| ensures PoolAt(p, s, samples, n) == p.max {
      PressedUp(p, s, samples, n);
    }
  }
}
