/** `FlowCorrectedThompsonBandit` of `crates/contextra-adapt/src/flow_thompson.rs`: the weighted regression
    with transported rewards, its ring of recent observations, and the drift rate fitted to that ring.
    Whether a machine number is finite is a fact the caller supplies. */
module FlowThompson {
  import opened Basics
  import opened LinearAlgebra
  import opened ShermanMorrison
  import opened RowMajor
  import opened DriftRegression
  import ConjugateGradient
  import RieGreedy

  datatype Error = DimensionMismatch(expected: nat, actual: nat) | NonFinite | InvalidConfig

  datatype Config = Config(dim: nat, lambda: real, noiseVar: real, windowCapacity: nat, driftRidge: real,
                           maxDriftNorm: real)

  /** `validate` */
  predicate Accepts(c: Config) {
    c.dim > 0 && c.lambda > 0.0 && c.noiseVar > 0.0 && c.windowCapacity > 0 && c.driftRidge > 0.0 &&
    c.maxDriftNorm > 0.0
  }

  // ---- The ring ---------------------------------------------------------------------------------

  lemma SlotBounds(cap: nat, d: nat, slot: nat)
    requires slot < cap
    ensures 0 <= slot * d <= slot * d + d <= cap * d
  {
    assert slot * d + d == (slot + 1) * d;
    MulMonotone(slot + 1, cap, d);
  }

  lemma SlotsApart(d: nat, i: nat, k: nat)
    requires i != k
    ensures i * d + d <= k * d || k * d + d <= i * d
  {
    if i < k {
      assert i * d + d == (i + 1) * d;
      MulMonotone(i + 1, k, d);
    } else {
      assert k * d + d == (k + 1) * d;
      MulMonotone(k + 1, i, d);
    }
  }

  function SlotVector(ctx: seq<real>, cap: nat, d: nat, slot: nat): (x: Vector)
    requires |ctx| == cap * d && slot < cap
    ensures |x| == d
  {
    SlotBounds(cap, d, slot);
    ctx[slot * d..slot * d + d]
  }

  function Stored(ctx: seq<real>, rewards: seq<real>, times: seq<nat>, cap: nat, d: nat, slot: nat): Observation
    requires |ctx| == cap * d && |rewards| == |times| == cap && slot < cap
  {
    Observation(SlotVector(ctx, cap, d, slot), rewards[slot], times[slot])
  }

  // The part of the log that the ring still holds.
  function Window(log: seq<Observation>, cap: nat): (w: seq<Observation>)
    ensures |w| == Least(|log|, cap)
  {
    log[|log| - Least(|log|, cap)..]
  }

  // Observation number n sits in slot n mod cap as long as the ring holds it.
  ghost predicate RingHolds(ctx: seq<real>, rewards: seq<real>, times: seq<nat>, cap: nat, d: nat,
                            head: nat, len: nat, log: seq<Observation>)
  {
    && cap > 0 && |ctx| == cap * d && |rewards| == |times| == cap
    && head == |log| % cap && len == Least(|log|, cap)
    && forall n :: |log| - len <= n < |log| ==> InSlot(ctx, rewards, times, cap, d, log, n)
  }

  lemma RingShape(ctx: seq<real>, rewards: seq<real>, times: seq<nat>, cap: nat, d: nat, head: nat, len: nat,
                  log: seq<Observation>)
    requires RingHolds(ctx, rewards, times, cap, d, head, len, log)
    ensures head < cap && len <= cap
  {
  }

  ghost predicate InSlot(ctx: seq<real>, rewards: seq<real>, times: seq<nat>, cap: nat, d: nat, log: seq<Observation>,
                         n: nat)
    requires cap > 0 && |ctx| == cap * d && |rewards| == |times| == cap && n < |log|
  {
    Stored(ctx, rewards, times, cap, d, n % cap) == log[n]
  }

  // The index formula of the drift regression's window loop.
  function WindowSlot(head: nat, len: nat, cap: nat, k: nat): nat
    requires cap > 0 && len <= cap
  {
    if len < cap then k else (head + cap - len + k) % cap
  }

  lemma ModUnique(n: nat, q: nat, r: nat, cap: nat)
    requires cap > 0 && n == q * cap + r && r < cap
    ensures n % cap == r
  {
    var p, t := n / cap, n % cap;
    assert n == p * cap + t && (q + 1) * cap == q * cap + cap && (p + 1) * cap == p * cap + cap;
    if q < p {
      MulMonotone(q + 1, p, cap);
    } else if p < q {
      MulMonotone(p + 1, q, cap);
    }
  }

  lemma ModPeriodic(s: nat, q: nat, cap: nat)
    requires cap > 0
    ensures (q * cap + s) % cap == s % cap
  {
    var p := s / cap;
    assert q * cap + s == (q + p) * cap + s % cap;
    ModUnique(q * cap + s, q + p, s % cap, cap);
  }

  lemma ModShift(n: nat, cap: nat, k: nat)
    requires cap > 0 && k < cap <= n
    ensures (n % cap + k) % cap == (n - cap + k) % cap
  {
    var q := n / cap;
    var s := n % cap + k;
    assert n - cap + k == (q - 1) * cap + s;
    ModPeriodic(s, q - 1, cap);
  }

  lemma ModSmall(a: nat, cap: nat)
    requires a < cap
    ensures a % cap == a
  {
  }

  /** The window loop visits exactly the observations still held, oldest first. */
  lemma WindowInOrder(ctx: seq<real>, rewards: seq<real>, times: seq<nat>, cap: nat, d: nat,
                      head: nat, len: nat, log: seq<Observation>, k: nat)
    requires RingHolds(ctx, rewards, times, cap, d, head, len, log) && k < len
    ensures WindowSlot(head, len, cap, k) < cap
    ensures Stored(ctx, rewards, times, cap, d, WindowSlot(head, len, cap, k)) == Window(log, cap)[k]
  {
    var n := |log| - len + k;
    assert InSlot(ctx, rewards, times, cap, d, log, n);
    if len < cap {
      ModSmall(k, cap);
    } else {
      ModShift(|log|, cap, k);
    }
  }

  lemma DistinctSlots(a: nat, b: nat, cap: nat)
    requires cap > 0 && a < b && b - a < cap
    ensures a % cap != b % cap
  {
    var p := a / cap;
    var s := a % cap + (b - a);
    assert b == p * cap + s;
    if s < cap {
      ModUnique(b, p, s, cap);
    } else {
      assert b == (p + 1) * cap + (s - cap);
      ModUnique(b, p + 1, s - cap, cap);
    }
  }

  lemma NextHead(n: nat, cap: nat)
    requires cap > 0
    ensures (n % cap + 1) % cap == (n + 1) % cap
  {
    var q := n / cap;
    assert n + 1 == q * cap + (n % cap + 1);
    ModPeriodic(n % cap + 1, q, cap);
  }

  /** Writing the next observation over the slot at `head`. */
  lemma RingPush(ctx: seq<real>, rewards: seq<real>, times: seq<nat>, cap: nat, d: nat, head: nat, len: nat,
                 log: seq<Observation>, ctx': seq<real>, o: Observation)
    requires RingHolds(ctx, rewards, times, cap, d, head, len, log) && |o.x| == d && |ctx'| == |ctx|
    requires head < cap && 0 <= head * d <= head * d + d <= cap * d
    requires ctx'[head * d..head * d + d] == o.x
    requires forall k :: 0 <= k < |ctx| && !(head * d <= k < head * d + d) ==> ctx'[k] == ctx[k]
    ensures RingHolds(ctx', rewards[head := o.reward], times[head := o.time], cap, d, (head + 1) % cap,
      Least(len + 1, cap),
                      log + [o])
  {
    var log', rewards', times' := log + [o], rewards[head := o.reward], times[head := o.time];
    var oldest := |log'| - Least(len + 1, cap);
    NextHead(|log|, cap);
    forall n | oldest <= n < |log'| ensures InSlot(ctx', rewards', times', cap, d, log', n) {
      if n < |log| {
        DistinctSlots(n, |log|, cap);
        assert InSlot(ctx, rewards, times, cap, d, log, n);
        SlotBounds(cap, d, n % cap);
        SlotsApart(d, n % cap, head);
        assert SlotVector(ctx', cap, d, n % cap) == SlotVector(ctx, cap, d, n % cap);
      }
    }
  }

  // ---- The weighted update ----------------------------------------------------------------------

  // What the fast path writes with v = A^-1 x and factor = s / (1 + s x . v) is the rank-one update.
  lemma WeightedUpdate(inv: Matrix, e: Event, v: Vector, den: real)
    requires e.decay == 1.0 && Square(inv, |e.x|)
    requires v == Apply(inv, e.x) && den == 1.0 + e.weight * Dot(e.x, v) && den > 0.0
    ensures Denominator(inv, e) == den
    ensures RankOne(1.0, inv, -(e.weight / den), v) == Updated(inv, e)
  {
    assert v == Direction(inv, 1.0, e.x);
  }

  lemma WeightedDenominator(inv: Matrix, e: Event, v: Vector, den: real)
    requires e.decay == 1.0 && Square(inv, |e.x|)
    requires v == Apply(inv, e.x) && den == 1.0 + e.weight * Dot(e.x, v)
    ensures Denominator(inv, e) == den
  {
    assert v == Direction(inv, 1.0, e.x);
  }

  lemma WeightedTargets(eta: Vector, e: Event, pull: real)
    requires e.decay == 1.0 && |eta| == |e.x| && pull == e.weight * e.target
    ensures Lin(1.0, eta, pull, e.x) == Lin(e.decay, eta, Pull(e), e.x)
  {
    assert pull == Pull(e);
  }

  function Carried(reward: real, dt: real, drift: real): real {
    reward + dt * drift
  }

  /** The drift is fitted to what a reward was above the estimate, and transport adds it to the reward: where the fit
      is perfect, a transported reward is off the estimate by twice as much as the reward itself. */
  lemma TransportDoubles(o: Observation, now: nat, mu: Vector, delta: Vector)
    requires |o.x| == |mu| == |delta|
    ensures Carried(o.reward, Saturated(now, o.time) as real, Dot(delta, o.x)) - Dot(mu, o.x) ==
      2.0 * (o.reward - Dot(mu, o.x)) - Miss(o, now, mu, delta)
  {
  }

  method ZeroArray(n: nat) returns (a: array<real>)
    ensures fresh(a) && a.Length == n && a[..] == Zeros(n)
    ensures forall k :: 0 <= k < n ==> a[k] == 0.0
  {
    a := new real[n](k => 0.0);
  }

  method CopyInto(dst: array<real>, lo: nat, src: seq<real>)
    requires lo + |src| <= dst.Length
    modifies dst
    ensures dst[lo..lo + |src|] == src
    ensures forall k :: 0 <= k < dst.Length && !(lo <= k < lo + |src|) ==> dst[k] == old(dst[k])
  {
    var i := 0;
    while i < |src|
      invariant 0 <= i <= |src|
      invariant forall k :: lo <= k < lo + i ==> dst[k] == src[k - lo]
      invariant forall k :: 0 <= k < dst.Length && !(lo <= k < lo + i) ==> dst[k] == old(dst[k])
    {
      dst[lo + i] := src[i];
      i := i + 1;
    }
  }

  class FlowCorrectedThompsonBandit {
    const config: Config
    var invA: array<real>
    var eta: array<real>
    var mu: array<real>
    var driftRate: seq<real>
    var ctx: array<real>
    var rewards: array<real>
    var times: array<nat>
    var head: nat
    var len: nat
    var timeStep: nat
    var scratch: array<real>
    // The accepted observations, and the regression events they became.
    ghost var log: seq<Observation>
    ghost var events: seq<Event>

    ghost predicate Shaped()
      reads this
    {
      var d, cap := config.dim, config.windowCapacity;
      && Accepts(config)
      && invA.Length == d * d && eta.Length == mu.Length == scratch.Length == |driftRate| == d
      && ctx.Length == cap * d && rewards.Length == times.Length == cap
      && invA != eta && invA != mu && invA != ctx && invA != rewards && invA != scratch
      && eta != mu && eta != ctx && eta != rewards && eta != scratch
      && mu != ctx && mu != rewards && mu != scratch
      && ctx != rewards && ctx != scratch && rewards != scratch
    }

    // The regression half of the state.
    ghost predicate Fitted()
      requires Shaped()
      reads this, invA, eta, mu
    {
      && RieGreedy.Informs(events, Rows(invA[..], config.dim), eta[..], config.dim, config.lambda)
      && mu[..] == Apply(Rows(invA[..], config.dim), eta[..])
    }

    // The ring half.
    ghost predicate Recorded()
      requires Shaped()
      reads this, ctx, rewards, times
    {
      && RingHolds(ctx[..], rewards[..], times[..], config.windowCapacity, config.dim, head, len, log)
      && timeStep == |log|
    }

    ghost predicate Valid()
      reads this, invA, eta, mu, ctx, rewards, times
    {
      Shaped() && Fitted() && Recorded()
    }

    /** `new`, after a successful `validate`. */
    constructor (config: Config)
      requires Accepts(config)
      ensures Valid() && this.config == config && events == [] && log == [] && driftRate == Zeros(config.dim)
      ensures fresh(invA) && fresh(eta) && fresh(mu) && fresh(ctx) && fresh(rewards) && fresh(times) && fresh(scratch)
    {
      hide RieGreedy.Informs, Rows, Diagonal, Apply, RingHolds, Square, Zeros;
      var d, cap := config.dim, config.windowCapacity;
      this.config := config;
      var inverse := ZeroArray(d * d);
      FillDiagonal(inverse, d, 1.0 / config.lambda);
      var information := ZeroArray(d);
      var mean := ZeroArray(d);
      var contexts := ZeroArray(cap * d);
      var outcomes := ZeroArray(cap);
      var work := ZeroArray(d);
      invA, eta, mu, ctx, rewards, scratch := inverse, information, mean, contexts, outcomes, work;
      driftRate := Zeros(d);
      times := new nat[cap](i => 0);
      head, len, timeStep := 0, 0, 0;
      log, events := [], [];
      new;
      assert Shaped();
      StartState(config, Rows(invA[..], d), eta[..], mu[..], ctx[..], rewards[..], times[..]);
    }

    // The reward an observation made at `time` is worth now: moved along the estimated drift.
    ghost function Transported(x: seq<real>, reward: real, time: nat): real
      requires |x| == |driftRate|
      reads this
    {
      Carried(reward, Saturated(timeStep, time) as real, Dot(driftRate, x))
    }

    /** `update_with_flow`; the flags say whether the input and the result are finite. */
    method UpdateWithFlow(x: seq<real>, reward: real, time: nat, weight: real, inputFinite: bool, resultFinite: bool)
      returns (res: Result<(), Error>)
      requires Valid()
      modifies this`head, this`len, this`timeStep, this`log, this`events
      modifies invA, eta, mu, scratch, ctx, rewards, times
      ensures Valid()
      ensures res.Ok? <==> |x| == config.dim && inputFinite && weight >= 0.0 && resultFinite
      ensures !res.Ok? ==> res.error == if |x| != config.dim then DimensionMismatch(config.dim, |x|) else NonFinite
      ensures !res.Ok? ==>
        && invA[..] == old(invA[..]) && eta[..] == old(eta[..]) && mu[..] == old(mu[..])
        && ctx[..] == old(ctx[..]) && rewards[..] == old(rewards[..]) && times[..] == old(times[..])
        && head == old(head) && len == old(len) && timeStep == old(timeStep) && log == old(log) && events == old(events)
      ensures res.Ok? ==>
        && log == old(log) + [Observation(x, reward, time)] && timeStep == old(timeStep) + 1
        && events == old(events) + [old(Event(1.0, weight / config.noiseVar, x, Transported(x, reward, time)))]
    {
      hide RieGreedy.Informs, Rows, Apply, RingHolds, Square, Updated, Denominator, Lin, Dot, Carried;
      if |x| != config.dim {
        return Err(DimensionMismatch(config.dim, |x|));
      }
      if !inputFinite || weight < 0.0 {
        return Err(NonFinite);
      }
      var backupInvA, backupEta, backupMu := invA[..], eta[..], mu[..];
      var dt := Saturated(timeStep, time) as real;
      var driftDot := DotProduct(driftRate, x);
      var rHat := Carried(reward, dt, driftDot);
      var s := weight / config.noiseVar;
      ghost var e := Event(1.0, s, x, rHat);
      QuotientNonNegative(weight, config.noiseVar);
      RieGreedy.InformsNext(events, Rows(invA[..], config.dim), eta[..], config.dim, config.lambda, e);
      Regress(invA, eta, mu, scratch, x, s, rHat);
      if !resultFinite {
        CopyInto(invA, 0, backupInvA);
        CopyInto(eta, 0, backupEta);
        CopyInto(mu, 0, backupMu);
        assert invA[..] == backupInvA && eta[..] == backupEta && mu[..] == backupMu;
        return Err(NonFinite);
      }
      events := events + [e];
      Record(x, reward, time);
      res := Ok(());
    }

    /** The end of an accepted update: the ring takes the observation in. */
    method Record(x: seq<real>, reward: real, time: nat)
      requires Shaped() && Recorded() && |x| == config.dim
      modifies this`head, this`len, this`timeStep, this`log, ctx, rewards, times
      ensures Shaped() && Recorded()
      ensures log == old(log) + [Observation(x, reward, time)] && timeStep == old(timeStep) + 1
    {
      hide Stored, SlotVector, InSlot, RingHolds;
      var d, cap := config.dim, config.windowCapacity;
      var slot := head;
      RingShape(ctx[..], rewards[..], times[..], cap, d, head, len, log);
      SlotBounds(cap, d, slot);
      ghost var was := ctx[..];
      CopyInto(ctx, slot * d, x);
      rewards[slot] := reward;
      times[slot] := time;
      assert rewards[..] == old(rewards[..])[slot := reward] && times[..] == old(times[..])[slot := time];
      RingPush(was, old(rewards[..]), old(times[..]), cap, d, head, len, log, ctx[..], Observation(x, reward, time));
      head := (head + 1) % cap;
      len := Least(len + 1, cap);
      timeStep := timeStep + 1;
      log := log + [Observation(x, reward, time)];
    }

    /** `build_drift_regression_system` */
    method BuildDriftSystem() returns (ztz: array<real>, zte: array<real>)
      requires Valid()
      ensures fresh(ztz) && fresh(zte) && ztz.Length == config.dim * config.dim && zte.Length == config.dim
      ensures var w := Window(log, config.windowCapacity);
        && Dims(w, config.dim)
        && Rows(ztz[..], config.dim) == DriftMatrix(w, timeStep, config.driftRidge, config.dim)
        && zte[..] == DriftTarget(w, timeStep, mu[..], config.dim)
    {
      hide RieGreedy.Informs, Rows, Apply, DriftMatrix, DriftTarget, RingHolds, Dims, Window, RankOne, Lin, Diagonal;
      var d, cap := config.dim, config.windowCapacity;
      ghost var w := Window(log, cap);
      WindowDims(ctx[..], rewards[..], times[..], cap, d, head, len, log);
      ztz := ZeroArray(d * d);
      FillDiagonal(ztz, d, config.driftRidge);
      zte := ZeroArray(d);
      DriftStart(w, timeStep, config.driftRidge, mu[..], d);
      var k := 0;
      while k < len
        invariant 0 <= k <= len == |w|
        invariant fresh(ztz) && fresh(zte) && ztz != zte && ztz.Length == d * d && zte.Length == d
        invariant Dims(w[..k], d)
        invariant Rows(ztz[..], d) == DriftMatrix(w[..k], timeStep, config.driftRidge, d)
        invariant zte[..] == DriftTarget(w[..k], timeStep, mu[..], d)
      {
        WindowInOrder(ctx[..], rewards[..], times[..], cap, d, head, len, log, k);
        DriftNext(w, k, timeStep, config.driftRidge, mu[..], d);
        var slot := WindowSlot(head, len, cap, k);
        var x := Slot(ctx, cap, d, slot);
        AddObservation(ztz, zte, x, rewards[slot], Saturated(timeStep, times[slot]) as real, mu[..]);
        k := k + 1;
      }
      assert w[..k] == w;
    }

    /** `recompute_drift_rate_from_window`; `sqrt` is the square root of the machine, `finite` says whether
        the solver's answer is finite. */
    method RecomputeDriftRate(sqrt: real -> real, finite: bool) returns (ghost delta: seq<real>)
      requires Valid()
      requires IsRoot(sqrt)
      modifies this`driftRate
      ensures Valid()
      ensures len == 0 ==> driftRate == Zeros(config.dim)
      ensures len > 0 ==>
        var w := Window(log, config.windowCapacity);
        && Dims(w, config.dim) && |delta| == config.dim
        && ConjugateGradient.Solved(DriftMatrix(w, timeStep, config.driftRidge, config.dim),
                                    DriftTarget(w, timeStep, mu[..], config.dim), delta, config.driftRidge)
        && FitsBest(w, timeStep, config.driftRidge, mu[..], delta)
        && (!finite ==> driftRate == old(driftRate))
        && (finite ==> Clipped(delta, driftRate, config.maxDriftNorm))
        && (finite ==> FitsNoWorse(w, timeStep, config.driftRidge, mu[..], driftRate))
    {
      hide RieGreedy.Informs, Rows, Apply, DriftMatrix, DriftTarget, RingHolds, Dims, Window, Lin, Clipped, Dot,
           ConjugateGradient.Coercive, ConjugateGradient.Solved, ConjugateGradient.Descent, Symmetric, Square, FitsBest,
           FitsNoWorse;
      delta := [];
      if len == 0 {
        driftRate := Zeros(config.dim);
        return;
      }
      var ztz, zte := BuildDriftSystem();
      DriftMatrixCoercive(Window(log, config.windowCapacity), timeStep, config.driftRidge, config.dim);
      ghost var w, rho := Window(log, config.windowCapacity), config.driftRidge;
      var solution, xs, rs, ps := ConjugateGradient.Solve(ztz, zte, config.driftRidge);
      delta := solution;
      SolverFitsBest(w, timeStep, rho, mu[..], delta, xs, rs, ps);
      if finite {
        driftRate := Clip(solution, config.maxDriftNorm, sqrt);
        ClippedFits(w, timeStep, rho, mu[..], delta, driftRate, config.maxDriftNorm);
      }
    }
  }

  // `rate` is `delta`, shortened to the length `bound` if it is longer and not negligible.
  ghost predicate Clipped(delta: Vector, rate: Vector, bound: real) {
    && |rate| == |delta|
    && exists scale: real {:trigger Lin(scale, delta, 0.0, delta)} ::
         && 0.0 < scale <= 1.0 && rate == Lin(scale, delta, 0.0, delta)
         && if Dot(delta, delta) <= Times(bound, bound) then scale == 1.0
            else Dot(rate, rate) == Times(bound, bound) || Dot(delta, delta) <= Times(0.00000001, 0.00000001)
  }

  lemma ClippedFits(w: seq<Observation>, now: nat, rho: real, mu: Vector, delta: Vector, rate: Vector, bound: real)
    requires Dims(w, |mu|) && |delta| == |mu| && rho > 0.0
    requires FitsBest(w, now, rho, mu, delta) && Clipped(delta, rate, bound)
    ensures FitsNoWorse(w, now, rho, mu, rate)
  {
    hide DriftLoss, Dot, Lin;
    var scale: real :| 0.0 < scale <= 1.0 && rate == Lin(scale, delta, 0.0, delta);
    ShortenedFits(w, now, rho, mu, delta, scale);
  }

  /** The end of the recomputation: clip the solver's answer. */
  method Clip(delta: seq<real>, bound: real, sqrt: real -> real) returns (rate: seq<real>)
    requires bound > 0.0
    requires IsRoot(sqrt)
    ensures |rate| == |delta| && Clipped(delta, rate, bound)
  {
    hide Dot, Lin, Clipped;
    var normSq := DotProduct(delta, delta);
    DotSquare(delta);
    var norm := sqrt(normSq);
    OrderOfSquares(norm, bound);
    OrderOfSquares(norm, 0.00000001);
    if norm > bound && norm > 0.00000001 {
      var scale := bound / norm;
      rate := seq(|delta|, i requires 0 <= i < |delta| => scale * delta[i]);
      ShortenedBy(delta, rate, bound, norm, scale);
    } else {
      rate := delta;
      KeptWhole(delta, bound);
    }
  }

  lemma OrderOfSquares(a: real, b: real)
    requires a >= 0.0 && b > 0.0
    ensures a <= b <==> Times(a, a) <= Times(b, b)
  {
  }

  lemma KeptWhole(delta: Vector, bound: real)
    requires Dot(delta, delta) <= Times(bound, bound) || Dot(delta, delta) <= Times(0.00000001, 0.00000001)
    ensures Clipped(delta, delta, bound)
  {
    hide Dot, Times;
    assert Lin(1.0, delta, 0.0, delta) == delta;
  }

  lemma ShortenedBy(delta: Vector, rate: Vector, bound: real, norm: real, scale: real)
    requires norm > bound > 0.0 && scale == bound / norm && Times(norm, norm) == Dot(delta, delta)
    requires |rate| == |delta| && forall i :: 0 <= i < |delta| ==> rate[i] == scale * delta[i]
    ensures Clipped(delta, rate, bound)
  {
    hide Dot, Lin, Times;
    ScaledEntries(delta, rate, scale);
    ScaledSquare(delta, scale);
    ScaleIs(bound, norm, scale);
    OrderOfSquares(norm, bound);
  }

  lemma ScaledEntries(x: Vector, y: Vector, s: real)
    requires |y| == |x| && forall i :: 0 <= i < |x| ==> y[i] == s * x[i]
    ensures y == Lin(s, x, 0.0, x)
  {
    forall i | 0 <= i < |x| ensures y[i] == Lin(s, x, 0.0, x)[i] {
    }
  }

  lemma ScaleIs(bound: real, norm: real, scale: real)
    requires norm > bound > 0.0 && scale == bound / norm
    ensures 0.0 < scale <= 1.0 && scale * scale * Times(norm, norm) == Times(bound, bound)
  {
  }

  lemma ScaledSquare(x: Vector, s: real)
    ensures Dot(Lin(s, x, 0.0, x), Lin(s, x, 0.0, x)) == s * s * Dot(x, x)
  {
    hide Dot, Lin;
    LinDot(s, x, 0.0, x, Lin(s, x, 0.0, x));
    DotLin(x, s, x, 0.0, x);
  }

  lemma WindowDims(ctx: seq<real>, rewards: seq<real>, times: seq<nat>, cap: nat, d: nat,
                   head: nat, len: nat, log: seq<Observation>)
    requires RingHolds(ctx, rewards, times, cap, d, head, len, log)
    ensures Dims(Window(log, cap), d) && |Window(log, cap)| == len && len <= cap
  {
    forall k | 0 <= k < len ensures |Window(log, cap)[k].x| == d {
      WindowInOrder(ctx, rewards, times, cap, d, head, len, log, k);
    }
  }

  method Slot(ctx: array<real>, cap: nat, d: nat, slot: nat) returns (x: seq<real>)
    requires ctx.Length == cap * d && slot < cap
    ensures x == SlotVector(ctx[..], cap, d, slot)
  {
    SlotBounds(cap, d, slot);
    x := ctx[slot * d..slot * d + d];
  }

  /** The body of the window loop. */
  method AddObservation(ztz: array<real>, zte: array<real>, x: seq<real>, reward: real, dt: real, mu: seq<real>)
    requires ztz.Length == |x| * |x| && zte.Length == |x| == |mu| && ztz != zte
    modifies ztz, zte
    ensures Rows(ztz[..], |x|) == RankOne(1.0, Rows(old(ztz[..]), |x|), 1.0, Regressor(dt, x))
    ensures zte[..] == Lin(1.0, old(zte[..]), reward - Dot(mu, x), Regressor(dt, x))
  {
    hide Rows, RankOne, Lin, Dot;
    var muDotX := DotProduct(mu, x);
    var e := reward - muDotX;
    var z := Scaled(dt, x);
    AddScaled(zte, e, z);
    SubtractOuter(ztz, z, -1.0);
  }

  method Scaled(dt: real, x: seq<real>) returns (z: seq<real>)
    ensures z == Regressor(dt, x)
  {
    z := seq(|x|, i requires 0 <= i < |x| => dt * x[i]);
  }

  lemma QuotientNonNegative(a: real, b: real)
    requires a >= 0.0 && b > 0.0
    ensures a / b >= 0.0
  {
  }

  /** Steps 2 and 3 of `update_with_flow`: A^-1, eta and mu, in place. */
  method Regress(invA: array<real>, eta: array<real>, mu: array<real>, scratch: array<real>, x: seq<real>,
                 s: real, rHat: real)
    requires invA.Length == |x| * |x| && eta.Length == mu.Length == scratch.Length == |x|
    requires invA != eta && invA != mu && invA != scratch && eta != mu && eta != scratch && mu != scratch
    requires Denominator(Rows(invA[..], |x|), Event(1.0, s, x, rHat)) >= 1.0
    modifies invA, eta, mu, scratch
    ensures Rows(invA[..], |x|) == Updated(Rows(old(invA[..]), |x|), Event(1.0, s, x, rHat))
    ensures eta[..] == Lin(1.0, old(eta[..]), Pull(Event(1.0, s, x, rHat)), x)
    ensures mu[..] == Apply(Rows(invA[..], |x|), eta[..])
  {
    hide Rows, Apply, Updated, Denominator, Lin, Dot, RankOne, Pull;
    ghost var e, inv := Event(1.0, s, x, rHat), Rows(invA[..], |x|);
    var xtv := Image(invA, x, scratch);
    WeightedDenominator(inv, e, scratch[..], 1.0 + s * xtv);
    var denom := if 1.0 + s * xtv < 0.00000001 then 0.00000001 else 1.0 + s * xtv;
    WeightedUpdate(inv, e, scratch[..], denom);
    var factor := s / denom;
    SubtractOuter(invA, scratch[..], factor);
    var pull := s * rHat;
    WeightedTargets(eta[..], e, pull);
    AddScaled(eta, pull, x);
    var _ := Image(invA, eta[..], mu);
  }

  lemma StartState(c: Config, inv: Matrix, eta: Vector, mu: Vector, ctx: seq<real>, rewards: seq<real>, times: seq<nat>)
    requires Accepts(c) && inv == Diagonal(c.dim, 1.0 / c.lambda) && eta == mu == Zeros(c.dim)
    requires |ctx| == c.windowCapacity * c.dim && |rewards| == |times| == c.windowCapacity
    ensures RieGreedy.Informs([], inv, eta, c.dim, c.lambda) && mu == Apply(inv, eta)
    ensures RingHolds(ctx, rewards, times, c.windowCapacity, c.dim, 0, 0, [])
  {
    hide RieGreedy.Informs, Diagonal, Apply;
    RieGreedy.InformsAtStart(c.dim, c.lambda);
    ApplyZeros(inv, c.dim);
  }
}
