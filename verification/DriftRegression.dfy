/** The drift regression of `crates/contextra-adapt/src/flow_thompson.rs` on values: the least-squares problem,
    written from the observations, and the linear system the code builds for it. */
module DriftRegression {
  import opened Basics
  import opened LinearAlgebra
  import ConjugateGradient

  datatype Observation = Observation(x: Vector, reward: real, time: nat)

  function Saturated(a: nat, b: nat): nat {
    if a < b then 0 else a - b
  }

  ghost predicate Dims(w: seq<Observation>, d: nat) {
    forall k :: 0 <= k < |w| ==> |w[k].x| == d
  }

  // ---- The problem ------------------------------------------------------------------------------

  // How far the drift `delta` is off at an observation: what the reward was above the estimate, less what the
  // drift accounts for since then.
  function Miss(o: Observation, now: nat, mu: Vector, delta: Vector): real
    requires |o.x| == |mu| == |delta|
  {
    o.reward - Dot(mu, o.x) - (if now < o.time then 0.0 else (now - o.time) as real) * Dot(delta, o.x)
  }

  // The squares of these over the window, and `rho` times the square of the drift.
  function DriftLoss(w: seq<Observation>, now: nat, rho: real, mu: Vector, delta: Vector): real
    requires Dims(w, |mu|) && |delta| == |mu|
  {
    if w == [] then rho * Dot(delta, delta)
    else
      var front, o := w[..|w| - 1], w[|w| - 1];
      DriftLoss(front, now, rho, mu, delta) + Miss(o, now, mu, delta) * Miss(o, now, mu, delta)
  }

  // `delta` fits the window at least as well as no drift.
  predicate FitsNoWorse(w: seq<Observation>, now: nat, rho: real, mu: Vector, delta: Vector)
    requires Dims(w, |mu|) && |delta| == |mu|
  {
    DriftLoss(w, now, rho, mu, delta) <= DriftLoss(w, now, rho, mu, Zeros(|mu|))
  }

  // ---- The system -------------------------------------------------------------------------------

  // dt * x, the regressor of the drift regression
  function Regressor(dt: real, x: Vector): (z: Vector)
    ensures |z| == |x|
  {
    Lin(dt, x, 0.0, x)
  }

  // rho I + sum of z z^T over the window
  function DriftMatrix(w: seq<Observation>, now: nat, rho: real, d: nat): (m: Matrix)
    requires Dims(w, d)
    ensures Square(m, d)
  {
    if w == [] then Diagonal(d, rho)
    else
      var o := w[|w| - 1];
      RankOne(1.0, DriftMatrix(w[..|w| - 1], now, rho, d), 1.0, Regressor(Saturated(now, o.time) as real, o.x))
  }

  // sum of z (r - mu . x) over the window
  function DriftTarget(w: seq<Observation>, now: nat, mu: Vector, d: nat): (b: Vector)
    requires Dims(w, d) && |mu| == d
    ensures |b| == d
  {
    if w == [] then Zeros(d)
    else
      var o := w[|w| - 1];
      Lin(1.0, DriftTarget(w[..|w| - 1], now, mu, d), o.reward - Dot(mu, o.x),
        Regressor(Saturated(now, o.time) as real, o.x))
  }

  lemma DriftStart(w: seq<Observation>, now: nat, rho: real, mu: Vector, d: nat)
    requires Dims(w, d) && |mu| == d
    ensures Dims(w[..0], d) && DriftMatrix(w[..0], now, rho, d) == Diagonal(d, rho)
    ensures DriftTarget(w[..0], now, mu, d) == Zeros(d)
  {
  }

  lemma DriftNext(w: seq<Observation>, k: nat, now: nat, rho: real, mu: Vector, d: nat)
    requires Dims(w, d) && |mu| == d && k < |w|
    ensures |w[k].x| == d && Dims(w[..k], d) && Dims(w[..k + 1], d)
    ensures DriftMatrix(w[..k + 1], now, rho, d) ==
      RankOne(1.0, DriftMatrix(w[..k], now, rho, d), 1.0, Regressor(Saturated(now, w[k].time) as real, w[k].x))
    ensures DriftTarget(w[..k + 1], now, mu, d) ==
      Lin(1.0, DriftTarget(w[..k], now, mu, d), w[k].reward - Dot(mu, w[k].x),
          Regressor(Saturated(now, w[k].time) as real, w[k].x))
  {
    hide RankOne, Lin, Dot, Regressor;
    assert w[..k + 1][..k] == w[..k];
  }

  /** The drift regression's matrix is symmetric, with x M x at least rho times x x. */
  lemma {:induction false} DriftMatrixCoercive(w: seq<Observation>, now: nat, rho: real, d: nat)
    requires Dims(w, d)
    ensures Symmetric(DriftMatrix(w, now, rho, d), d)
    ensures ConjugateGradient.Coercive(DriftMatrix(w, now, rho, d), d, rho)
  {
    hide RankOne, Symmetric, Regressor, ConjugateGradient.Coercive, Diagonal;
    if w == [] {
      RidgeCoercive(d, rho);
    } else {
      var front, o := w[..|w| - 1], w[|w| - 1];
      DriftMatrixCoercive(front, now, rho, d);
      SquareAddedCoercive(DriftMatrix(front, now, rho, d), Regressor(Saturated(now, o.time) as real, o.x), d, rho);
    }
  }

  lemma RidgeCoercive(d: nat, rho: real)
    ensures Symmetric(Diagonal(d, rho), d) && ConjugateGradient.Coercive(Diagonal(d, rho), d, rho)
  {
    forall x: Vector | |x| == d ensures Quadratic(Diagonal(d, rho), x) >= Times(rho, Dot(x, x)) {
      DiagonalApply(d, rho, x);
      DotLin(x, rho, x, 0.0, x);
    }
  }

  lemma SquareAddedCoercive(m: Matrix, z: Vector, d: nat, rho: real)
    requires |z| == d && Square(m, d) && Symmetric(m, d) && ConjugateGradient.Coercive(m, d, rho)
    ensures Symmetric(RankOne(1.0, m, 1.0, z), d) && ConjugateGradient.Coercive(RankOne(1.0, m, 1.0, z), d, rho)
  {
    hide RankOne, Symmetric, Quadratic, Times, Dot;
    RankOneSymmetric(1.0, m, 1.0, z);
    forall x: Vector | |x| == d ensures Quadratic(RankOne(1.0, m, 1.0, z), x) >= Times(rho, Dot(x, x)) {
      RankOneQuadratic(1.0, m, 1.0, z, x);
      OneTimes(Quadratic(m, x));
      OneTimes(Times(Dot(z, x), Dot(z, x)));
      SquareSign(Dot(z, x));
    }
  }

  lemma OneTimes(x: real)
    ensures Times(1.0, x) == x
  {
  }

  // ---- What its solutions are worth -------------------------------------------------------------

  lemma RegressorDot(dt: real, x: Vector, delta: Vector)
    requires |delta| == |x|
    ensures Dot(Regressor(dt, x), delta) == Dot(delta, Regressor(dt, x)) == dt * Dot(delta, x)
  {
    DotLin(delta, dt, x, 0.0, x);
    DotSymmetric(Regressor(dt, x), delta);
  }

  lemma SquareOfMiss(e: real, dt: real, p: real)
    ensures (e - dt * p) * (e - dt * p) == e * e - 2.0 * (e * (dt * p)) + Times(dt * p, dt * p)
  {
  }

  // One observation's part in the loss, in the terms of the linear system.
  lemma OneMiss(o: Observation, now: nat, mu: Vector, delta: Vector)
    requires |o.x| == |mu| == |delta|
    ensures var z, e := Regressor(Saturated(now, o.time) as real, o.x), o.reward - Dot(mu, o.x);
      Miss(o, now, mu, delta) * Miss(o, now, mu, delta) ==
        e * e - 2.0 * (e * Dot(delta, z)) + Times(Dot(z, delta), Dot(z, delta))
  {
    hide Dot;
    var dt, e := Saturated(now, o.time) as real, o.reward - Dot(mu, o.x);
    RegressorDot(dt, o.x, delta);
    SquareOfMiss(e, dt, Dot(delta, o.x));
  }

  lemma MissAtZero(o: Observation, now: nat, mu: Vector)
    requires |o.x| == |mu|
    ensures Miss(o, now, mu, Zeros(|mu|)) == o.reward - Dot(mu, o.x)
  {
    DotToZeros(o.x, |mu|);
    DotSymmetric(o.x, Zeros(|mu|));
  }

  /** The loss as a quadratic in the drift: its matrix and its vector are those of the system that is built. */
  lemma {:induction false} LossIsQuadratic(w: seq<Observation>, now: nat, rho: real, mu: Vector, delta: Vector)
    requires Dims(w, |mu|) && |delta| == |mu|
    ensures DriftLoss(w, now, rho, mu, delta) == DriftLoss(w, now, rho, mu, Zeros(|mu|))
      + Quadratic(DriftMatrix(w, now, rho, |mu|), delta) - 2.0 * Dot(DriftTarget(w, now, mu, |mu|), delta)
  {
    hide Dot, RankOne, Lin, Quadratic, Regressor, Miss;
    var d := |mu|;
    if w == [] {
      RidgeLoss(rho, delta, d);
    } else {
      var front, o := w[..|w| - 1], w[|w| - 1];
      LossIsQuadratic(front, now, rho, mu, delta);
      var z, e := Regressor(Saturated(now, o.time) as real, o.x), o.reward - Dot(mu, o.x);
      var m, b := DriftMatrix(front, now, rho, d), DriftTarget(front, now, mu, d);
      OneMiss(o, now, mu, delta);
      MissAtZero(o, now, mu);
      RankOneQuadratic(1.0, m, 1.0, z, delta);
      OneTimes(Quadratic(m, delta));
      OneTimes(Times(Dot(z, delta), Dot(z, delta)));
      LinDot(1.0, b, e, z, delta);
      DotSymmetric(z, delta);
    }
  }

  lemma RidgeLoss(rho: real, delta: Vector, d: nat)
    requires |delta| == d
    ensures rho * Dot(delta, delta) == Quadratic(Diagonal(d, rho), delta)
    ensures rho * Dot(Zeros(d), Zeros(d)) == 0.0 && Dot(Zeros(d), delta) == 0.0
  {
    DiagonalApply(d, rho, delta);
    DotLin(delta, rho, delta, 0.0, delta);
    DotSquare(Zeros(d));
    DotToZeros(delta, d);
    DotSymmetric(delta, Zeros(d));
  }

  // rho |h|^2 - 2 r . h is never below -|r|^2 / rho.
  lemma ShiftBound(r: Vector, h: Vector, rho: real)
    requires |h| == |r| && rho > 0.0
    ensures rho * (2.0 * Dot(r, h) - rho * Dot(h, h)) <= Dot(r, r)
  {
    hide Dot, Lin;
    var q := Lin(rho, h, -1.0, r);
    DotSquare(q);
    LinDot(rho, h, -1.0, r, q);
    DotLin(h, rho, h, -1.0, r);
    DotLin(r, rho, h, -1.0, r);
    DotSymmetric(h, r);
  }

  lemma ShiftScalar(quad: real, hh: real, rh: real, rr: real, rho: real)
    requires rho > 0.0 && quad >= rho * hh && rho * (2.0 * rh - rho * hh) <= rr
    ensures rho * (2.0 * rh - quad) <= rr && rho * (0.0 - (quad - 2.0 * rh)) <= rr
  {
    assert rho * (rho * hh) <= rho * quad;
  }

  lemma ShiftFromResidual(m: Matrix, b: Vector, x: Vector, h: Vector)
    requires Square(m, |x|) && Symmetric(m, |x|) && |b| == |h| == |x|
    ensures var y := Lin(1.0, x, 1.0, h);
      Quadratic(m, y) - 2.0 * Dot(b, y) ==
        (Quadratic(m, x) - 2.0 * Dot(b, x)) + Quadratic(m, h) - 2.0 * Dot(ConjugateGradient.Residual(m, b, x), h)
  {
    hide Apply, Dot, Lin, Symmetric, Quadratic;
    QuadraticShift(m, b, x, h);
  }

  /** No drift fits the window better than `delta` by more than the square of the solver's residual over rho; where
      there is no residual, none fits better at all. */
  lemma ResidualBoundsExcess(w: seq<Observation>, now: nat, rho: real, mu: Vector, delta: Vector, phi: Vector)
    requires Dims(w, |mu|) && |phi| == |delta| == |mu| && rho > 0.0
    ensures var r := ConjugateGradient.Residual(DriftMatrix(w, now, rho, |mu|), DriftTarget(w, now, mu, |mu|), delta);
      rho * (DriftLoss(w, now, rho, mu, delta) - DriftLoss(w, now, rho, mu, phi)) <= Dot(r, r)
  {
    hide Dot, Lin, Apply, Quadratic, DriftMatrix, DriftTarget, DriftLoss, ConjugateGradient.Residual, Symmetric;
    var m, b := DriftMatrix(w, now, rho, |mu|), DriftTarget(w, now, mu, |mu|);
    DriftMatrixCoercive(w, now, rho, |mu|);
    LossIsQuadratic(w, now, rho, mu, delta);
    LossIsQuadratic(w, now, rho, mu, phi);
    ValueBound(m, b, delta, phi, rho);
    Rebased(DriftLoss(w, now, rho, mu, delta), DriftLoss(w, now, rho, mu, phi), DriftLoss(w, now, rho, mu, Zeros(|mu|)),
      Quadratic(m, delta) - 2.0 * Dot(b, delta), Quadratic(m, phi) - 2.0 * Dot(b, phi), rho);
  }

  lemma Rebased(x: real, y: real, z: real, u: real, v: real, rho: real)
    requires x == z + u && y == z + v
    ensures rho * (x - y) == rho * (u - v)
  {
  }

  // The same for the quadratic alone.
  lemma ValueBound(m: Matrix, b: Vector, x: Vector, y: Vector, rho: real)
    requires Square(m, |x|) && Symmetric(m, |x|) && |b| == |x| == |y| && rho > 0.0
    requires ConjugateGradient.Coercive(m, |x|, rho)
    ensures var r := ConjugateGradient.Residual(m, b, x);
      rho * ((Quadratic(m, x) - 2.0 * Dot(b, x)) - (Quadratic(m, y) - 2.0 * Dot(b, y))) <= Dot(r, r)
  {
    hide Dot, Lin, Apply, Quadratic, ConjugateGradient.Residual, Symmetric;
    var h, r := Lin(1.0, y, -1.0, x), ConjugateGradient.Residual(m, b, x);
    DifferenceBack(x, y);
    ShiftFromResidual(m, b, x, h);
    ShiftBound(r, h, rho);
    CoerciveAt(m, h, rho);
    ShiftScalar(Quadratic(m, h), Dot(h, h), Dot(r, h), Dot(r, r), rho);
    Rebased(Quadratic(m, x) - 2.0 * Dot(b, x), Quadratic(m, y) - 2.0 * Dot(b, y), Quadratic(m, x) - 2.0 * Dot(b, x),
      0.0, Quadratic(m, h) - 2.0 * Dot(r, h), rho);
  }

  lemma CoerciveAt(m: Matrix, h: Vector, rho: real)
    requires Square(m, |h|) && ConjugateGradient.Coercive(m, |h|, rho)
    ensures Quadratic(m, h) >= rho * Dot(h, h)
  {
    hide Dot, Quadratic;
    assert Quadratic(m, h) >= Times(rho, Dot(h, h));
  }

  /** The loss is what it is without drift plus twice the solver's energy, so every iteration lowers it too. */
  lemma LossIsEnergy(w: seq<Observation>, now: nat, rho: real, mu: Vector, delta: Vector)
    requires Dims(w, |mu|) && |delta| == |mu|
    ensures DriftLoss(w, now, rho, mu, delta) == DriftLoss(w, now, rho, mu, Zeros(|mu|)) +
      2.0 * ConjugateGradient.Energy(DriftMatrix(w, now, rho, |mu|), DriftTarget(w, now, mu, |mu|), delta)
  {
    hide Dot, Quadratic, DriftMatrix, DriftTarget, DriftLoss;
    LossIsQuadratic(w, now, rho, mu, delta);
  }

  lemma ShortenedScalar(l0: real, q: real, p: real, s: real)
    requires q >= 0.0 && q <= 2.0 * p && 0.0 <= s <= 1.0
    ensures l0 + s * s * q - 2.0 * (s * p) <= l0
  {
    assert s * q <= s * (2.0 * p);
    assert s * (s * q) <= 1.0 * (s * q);
  }

  /** Shortening a drift that fits no worse than none leaves one that fits no worse than none. */
  lemma ShortenedFits(w: seq<Observation>, now: nat, rho: real, mu: Vector, delta: Vector, s: real)
    requires Dims(w, |mu|) && |delta| == |mu| && rho > 0.0 && 0.0 <= s <= 1.0
    requires FitsNoWorse(w, now, rho, mu, delta)
    ensures FitsNoWorse(w, now, rho, mu, Lin(s, delta, 0.0, delta))
  {
    hide Dot, Lin, Apply, DriftLoss, DriftMatrix, DriftTarget, Symmetric;
    var m, b, y := DriftMatrix(w, now, rho, |mu|), DriftTarget(w, now, mu, |mu|), Lin(s, delta, 0.0, delta);
    LossIsQuadratic(w, now, rho, mu, delta);
    LossIsQuadratic(w, now, rho, mu, y);
    DriftMatrixCoercive(w, now, rho, |mu|);
    assert Quadratic(m, delta) >= Times(rho, Dot(delta, delta));
    DotSquare(delta);
    TimesNonNegative(rho, Dot(delta, delta));
    ApplyLin(m, s, delta, 0.0, delta);
    LinDot(s, delta, 0.0, delta, Lin(s, Apply(m, delta), 0.0, Apply(m, delta)));
    DotLin(delta, s, Apply(m, delta), 0.0, Apply(m, delta));
    DotLin(b, s, delta, 0.0, delta);
    ShortenedScalar(DriftLoss(w, now, rho, mu, Zeros(|mu|)), Quadratic(m, delta), Dot(b, delta), s);
  }

  // `delta` fits the window at least as well as no drift, and up to the thresholds of the solver as well as any.
  ghost predicate FitsBest(w: seq<Observation>, now: nat, rho: real, mu: Vector, delta: Vector)
    requires Dims(w, |mu|) && |delta| == |mu|
  {
    && FitsNoWorse(w, now, rho, mu, delta)
    && forall phi: Vector {:trigger DriftLoss(w, now, rho, mu, phi)} :: |phi| == |mu| ==>
         Negligible(rho, DriftLoss(w, now, rho, mu, delta) - DriftLoss(w, now, rho, mu, phi))
  }

  // Times rho it is less than the first threshold of the solver's loop, or times its square at most the second.
  predicate Negligible(rho: real, excess: real) {
    rho * excess < 0.0000000001 || rho * (rho * excess) <= 0.000000000001
  }

  /** What the solver returns fits the window best, up to its thresholds. */
  lemma SolverFitsBest(w: seq<Observation>, now: nat, rho: real, mu: Vector, delta: Vector, xs: seq<Vector>,
                       rs: seq<Vector>, ps: seq<Vector>)
    requires Dims(w, |mu|) && |delta| == |mu| && rho > 0.0
    requires ConjugateGradient.Solved(DriftMatrix(w, now, rho, |mu|), DriftTarget(w, now, mu, |mu|), delta, rho)
    requires ConjugateGradient.Descent(DriftMatrix(w, now, rho, |mu|), DriftTarget(w, now, mu, |mu|), |mu|, xs, rs, ps)
    requires delta == xs[|xs| - 1]
    ensures FitsBest(w, now, rho, mu, delta)
  {
    hide DriftLoss, DriftMatrix, DriftTarget, ConjugateGradient.Descent, ConjugateGradient.Solved, FitsNoWorse,
         Negligible;
    DescentFits(w, now, rho, mu, xs, rs, ps);
    forall phi: Vector | |phi| == |mu|
      ensures Negligible(rho, DriftLoss(w, now, rho, mu, delta) - DriftLoss(w, now, rho, mu, phi))
    {
      SolvedFits(w, now, rho, mu, delta, phi);
    }
  }

  lemma DescentFits(w: seq<Observation>, now: nat, rho: real, mu: Vector, xs: seq<Vector>, rs: seq<Vector>,
                    ps: seq<Vector>)
    requires Dims(w, |mu|)
    requires ConjugateGradient.Descent(DriftMatrix(w, now, rho, |mu|), DriftTarget(w, now, mu, |mu|), |mu|, xs, rs, ps)
    ensures |xs[|xs| - 1]| == |mu| && FitsNoWorse(w, now, rho, mu, xs[|xs| - 1])
  {
    hide DriftLoss, DriftMatrix, DriftTarget, ConjugateGradient.Energy, ConjugateGradient.Orthogonal,
         ConjugateGradient.Conjugate, ConjugateGradient.Residual;
    var m, b := DriftMatrix(w, now, rho, |mu|), DriftTarget(w, now, mu, |mu|);
    ConjugateGradient.EnergyNeverPositive(m, b, |mu|, xs, rs, ps, |xs| - 1);
    LossIsEnergy(w, now, rho, mu, xs[|xs| - 1]);
  }

  lemma SolvedFits(w: seq<Observation>, now: nat, rho: real, mu: Vector, delta: Vector, phi: Vector)
    requires Dims(w, |mu|) && |phi| == |delta| == |mu| && rho > 0.0
    requires ConjugateGradient.Solved(DriftMatrix(w, now, rho, |mu|), DriftTarget(w, now, mu, |mu|), delta, rho)
    ensures Negligible(rho, DriftLoss(w, now, rho, mu, delta) - DriftLoss(w, now, rho, mu, phi))
  {
    hide Dot, DriftLoss, DriftMatrix, DriftTarget, ConjugateGradient.Residual, ConjugateGradient.Solved, Negligible;
    var m, b := DriftMatrix(w, now, rho, |mu|), DriftTarget(w, now, mu, |mu|);
    ResidualBoundsExcess(w, now, rho, mu, delta, phi);
    SolvedResidual(m, b, delta, rho, DriftLoss(w, now, rho, mu, delta) - DriftLoss(w, now, rho, mu, phi));
  }

  lemma SolvedResidual(m: Matrix, b: Vector, x: Vector, rho: real, excess: real)
    requires Square(m, |x|) && |b| == |x| && rho > 0.0 && ConjugateGradient.Solved(m, b, x, rho)
    requires rho * excess <= Dot(ConjugateGradient.Residual(m, b, x), ConjugateGradient.Residual(m, b, x))
    ensures Negligible(rho, excess)
  {
    hide Dot, Times, Negligible, ConjugateGradient.Residual;
    var r := ConjugateGradient.Residual(m, b, x);
    SmallResidual(rho, excess, Dot(r, r));
  }

  lemma SmallResidual(rho: real, excess: real, rr: real)
    requires rho > 0.0 && rho * excess <= rr && (rr < 0.0000000001 || Times(rho, rr) <= 0.000000000001)
    ensures Negligible(rho, excess)
  {
    assert rho * (rho * excess) <= rho * rr;
  }
}
