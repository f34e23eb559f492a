/** `BanditProfileState` of `crates/contextra-adapt/src/bandit.rs`: the discounted LinUCB learner in its
    production form, which keeps the inverse of the Gram matrix by rank-one updates. */
module Bandit {
  import opened Basics
  import opened LinearAlgebra
  import opened ShermanMorrison
  import opened RowMajor

  const REFACTORIZATION_INTERVAL: nat := 1000

  datatype Error =
    | DimensionMismatch(expected: nat, actual: nat)
    | NonFiniteVariance(variance: real)
    | PrecisionMatrixDriftDetected(updates: nat, denominator: real)

  // An outcome less what it cost, at the price the profile calls lambda.
  function Adjusted(rOutcome: real, cost: real, cloud: bool, price: real, mu: real): real {
    rOutcome - price * cost - (if cloud then mu else 0.0)
  }

  predicate Refused(res: Result<(), Error>, updates: nat) {
    res.Err? && res.error.PrecisionMatrixDriftDetected? && res.error.updates == updates
  }

  function Gained(theta: real, residual: real, v: real, denom: real): real
    requires denom != 0.0
  {
    theta + residual * (v / denom)
  }

  function Spread(sigmaSq: real, gamma: real, x: real): real {
    Spared(sigmaSq, gamma) + x * x
  }

  ghost predicate GainedAll(theta: seq<real>, theta': seq<real>, residual: real, v: seq<real>, denom: real) {
    && |theta'| == |theta| == |v| && denom != 0.0
    && forall i :: 0 <= i < |v| ==> theta'[i] == Gained(theta[i], residual, v[i], denom)
  }

  ghost predicate SpreadAll(sigmaSq: seq<real>, sigmaSq': seq<real>, gamma: real, x: seq<real>) {
    && |sigmaSq'| == |sigmaSq| == |x|
    && forall i :: 0 <= i < |x| ==> sigmaSq'[i] == Spread(sigmaSq[i], gamma, x[i])
  }

  // The discount an update really applies.
  function Decay(gamma: real): (r: real)
    ensures r > 0.0
  {
    Max(gamma, 0.00001)
  }

  lemma EntryOfUpdated(g: real, den: real, m: real, vi: real, vj: real)
    requires den > 0.0
    ensures g * m - vi / den * vj == g * m + -(1.0 / den) * vi * vj
  {
  }

  // Scaling the whole inverse is the update with an observation of weight zero.
  lemma ScaledIsUpdated(inv: Matrix, decay: real, d: nat, inv': Matrix)
    requires Square(inv, d) && Square(inv', d) && decay > 0.0
    requires forall i, j :: 0 <= i < d && 0 <= j < d ==> inv'[i][j] == inv[i][j] * (1.0 / decay)
    ensures Denominator(inv, Event(decay, 0.0, Zeros(d), 0.0)) == 1.0
    ensures inv' == Updated(inv, Event(decay, 0.0, Zeros(d), 0.0))
  {
    var e := Event(decay, 0.0, Zeros(d), 0.0);
    var v := Direction(inv, decay, e.x);
    forall i | 0 <= i < d ensures inv'[i] == RankOneRow(1.0 / decay, inv, -(0.0 / 1.0), v, i) {
      forall j | 0 <= j < d ensures inv'[i][j] == RankOneRow(1.0 / decay, inv, -(0.0 / 1.0), v, i)[j] {
        assert -(0.0 / 1.0) * v[i] == 0.0;
      }
    }
  }

  class BanditProfileState {
    var theta: array<real>
    var sigmaSq: array<real>
    var invA: array<real>
    var updatesSinceReset: nat
    var workBuf: array<real>
    var alpha: real
    var alphaBase: real
    var lambda: real
    var mu: real
    var gamma: real
    var driftGamma: real
    var driftStepsRemaining: nat
    var driftDecayWindow: nat
    // What the learner has taken in since its inverse was last started afresh.
    ghost var events: seq<Event>
    ghost var start: seq<real>

    ghost predicate Valid()
      reads this, theta, sigmaSq, invA, workBuf
    {
      && theta.Length > 0 && sigmaSq.Length == theta.Length
      && theta != sigmaSq && theta != invA && theta != workBuf
      && sigmaSq != invA && sigmaSq != workBuf && invA != workBuf
      && (invA.Length == theta.Length * theta.Length ==>
            Fits(events, start, Rows(invA[..], theta.Length), theta[..], theta.Length, 1.0))
    }

    ghost predicate Fresh()
      reads this, theta, invA
    {
      invA.Length != theta.Length * theta.Length
    }

    /** `cold_start` */
    constructor (d: nat, alphaBase: real)
      requires d > 0
      ensures Valid() && theta.Length == d && invA.Length == d * d
      ensures events == [] && start == Zeros(d) && updatesSinceReset == 0 && driftStepsRemaining == 0
      ensures theta[..] == Zeros(d) && Rows(invA[..], d) == Diagonal(d, 1.0)
      ensures |sigmaSq[..]| == d && forall i :: 0 <= i < d ==> sigmaSq[i] == 1.0
      ensures alpha == this.alphaBase == (if alphaBase == 0.0 then 0.5 else alphaBase) && lambda == 0.1 && mu == 0.2
      ensures gamma == 0.999 && driftGamma == 0.95 && driftDecayWindow == 50
      ensures fresh(theta) && fresh(sigmaSq) && fresh(invA) && fresh(workBuf)
    {
      theta := new real[d](i => 0.0);
      sigmaSq := new real[d](i => 1.0);
      var m := new real[d * d](k => 0.0);
      invA := m;
      workBuf := new real[d](i => 0.0);
      updatesSinceReset := 0;
      alpha := if alphaBase == 0.0 then 0.5 else alphaBase;
      this.alphaBase := if alphaBase == 0.0 then 0.5 else alphaBase;
      lambda, mu, gamma, driftGamma := 0.1, 0.2, 0.999, 0.95;
      driftStepsRemaining, driftDecayWindow := 0, 50;
      events, start := [], Zeros(d);
      new;
      FillDiagonal(invA, d, 1.0);
      assert theta[..] == Zeros(d);
      FitsAtStart(Zeros(d), d);
    }

    /** `ensure_inv_a` */
    method EnsureInvA()
      requires Valid()
      modifies this`invA, this`updatesSinceReset, this`events, this`start
      ensures Valid() && invA.Length == theta.Length * theta.Length
      ensures old(Fresh()) ==> fresh(invA) && updatesSinceReset == 0 && events == [] && start == theta[..]
      ensures !old(Fresh()) ==> invA == old(invA) && updatesSinceReset == old(updatesSinceReset)
      ensures !old(Fresh()) ==> events == old(events) && start == old(start)
    {
      var d := theta.Length;
      if invA.Length != d * d {
        var m := new real[d * d](k => 0.0);
        FillDiagonal(m, d, 1.0);
        invA := m;
        updatesSinceReset := 0;
        events, start := [], theta[..];
        FitsAtStart(theta[..], d);
      }
    }

    /** `ensure_work_buf` */
    method EnsureWorkBuf()
      requires Valid() && !Fresh()
      modifies this`workBuf
      ensures Valid() && workBuf.Length == theta.Length
      ensures workBuf == old(workBuf) || fresh(workBuf)
    {
      if workBuf.Length != theta.Length {
        workBuf := new real[theta.Length](i => 0.0);
      }
    }

    // The event an update of the present state stands for.
    ghost function EventOf(x: seq<real>, rOutcome: real, cost: real, cloud: bool): Event
      reads this
    {
      Event(Decay(EffectiveGamma()), 1.0, x, Adjusted(rOutcome, cost, cloud, lambda, mu))
    }

    function EffectiveGamma(): real
      reads this
    {
      if driftStepsRemaining > 0 then driftGamma else gamma
    }

    /** `update`, in the Sherman-Morrison form. */
    method Update(x: seq<real>, rOutcome: real, cost: real, cloud: bool) returns (res: Result<(), Error>)
      requires Valid()
      modifies this`invA, this`updatesSinceReset, this`workBuf, this`driftStepsRemaining, this`events, this`start
      modifies theta, sigmaSq, invA, workBuf
      ensures Valid() && (invA == old(invA) || fresh(invA)) && (workBuf == old(workBuf) || fresh(workBuf))
      ensures |x| != old(theta.Length) ==>
        && res == Err(DimensionMismatch(old(theta.Length), |x|))
        && unchanged(this) && theta[..] == old(theta[..]) && sigmaSq[..] == old(sigmaSq[..]) && invA[..] ==
          old(invA[..])
      ensures |x| == old(theta.Length) ==>
        var n := if old(Fresh()) then 0 else old(updatesSinceReset);
        var past := if old(Fresh()) then [] else old(events);
        && !Fresh() && updatesSinceReset == n + 1
        && start == (if old(Fresh()) then old(theta[..]) else old(start))
        && driftStepsRemaining == (if old(driftStepsRemaining) > 0 then old(driftStepsRemaining) - 1 else 0)
        && (res.Ok? <==> n + 1 <= 1000)
        && (res.Ok? ==> events == past + [old(EventOf(x, rOutcome, cost, cloud))])
        && old(EventOf(x, rOutcome, cost, cloud)) == Event(
             Max(old(if driftStepsRemaining > 0 then driftGamma else gamma), 0.00001), 1.0, x,
             rOutcome - lambda * cost - (if cloud then mu else 0.0))
        && (res.Ok? ==> SpreadAll(old(sigmaSq[..]), sigmaSq[..], old(EffectiveGamma()), x))
        && (!res.Ok? ==> Refused(res, n + 1) && events == past)
        && (!res.Ok? ==> theta[..] == old(theta[..]) && sigmaSq[..] == old(sigmaSq[..]) && invA[..] == old(invA[..]))
    {
      hide Fits, Gram, Targets, Rows, SpreadAll, Adjusted;
      EventIs(this, x, rOutcome, cost, cloud);
      if |x| != theta.Length {
        return Err(DimensionMismatch(theta.Length, |x|));
      }
      var privacyPenalty := if cloud then mu else 0.0;
      var rAdj := rOutcome - lambda * cost - privacyPenalty;
      AdjustedIs(rOutcome, cost, cloud, lambda, mu, rAdj);
      var effectiveGamma := EffectiveGamma();
      driftStepsRemaining := if driftStepsRemaining > 0 then driftStepsRemaining - 1 else driftStepsRemaining;
      EnsureInvA();
      res := Absorb(x, rAdj, effectiveGamma);
    }

    /** The rest of `update`: steps 1 to 4 on an inverse of the right size. */
    method Absorb(x: seq<real>, rAdj: real, effectiveGamma: real) returns (res: Result<(), Error>)
      requires Valid() && !Fresh() && |x| == theta.Length
      modifies this`updatesSinceReset, this`events, this`workBuf, theta, sigmaSq, invA, workBuf
      ensures Valid() && !Fresh() && (workBuf == old(workBuf) || fresh(workBuf))
      ensures updatesSinceReset == old(updatesSinceReset) + 1
      ensures res.Ok? <==> updatesSinceReset <= REFACTORIZATION_INTERVAL
      ensures res.Ok? ==> events == old(events) + [Event(Decay(effectiveGamma), 1.0, x, rAdj)]
      ensures res.Ok? ==> SpreadAll(old(sigmaSq[..]), sigmaSq[..], effectiveGamma, x)
      ensures !res.Ok? ==> Refused(res, updatesSinceReset) && events == old(events)
      ensures !res.Ok? ==> theta[..] == old(theta[..]) && sigmaSq[..] == old(sigmaSq[..]) && invA[..] == old(invA[..])
    {
      hide Fits, Gram, Targets, Rows, Direction, Denominator, Dot, SpreadAll, GainedAll, RankOne;
      EnsureWorkBuf();
      updatesSinceReset := updatesSinceReset + 1;
      ghost var e := Event(Decay(effectiveGamma), 1.0, x, rAdj);
      var decay := Max(effectiveGamma, 0.00001);
      var xtv := Discount(invA, x, decay, workBuf);
      var denominator := 1.0 + xtv;
      ghost var inv, was, past := Rows(invA[..], |x|), theta[..], events;
      DenominatorIs(inv, e, workBuf[..], denominator);
      DenominatorPositive(past, start, inv, was, |x|, e);
      if updatesSinceReset > REFACTORIZATION_INTERVAL || denominator <= 0.0 {
        return Err(PrecisionMatrixDriftDetected(updatesSinceReset, denominator));
      }
      var denomSafe := Max(denominator, 0.00000001);
      var predicted := DotProduct(theta[..], x);
      var residual := rAdj - predicted;
      ApplyGain(theta, sigmaSq, invA, workBuf[..], x, 1.0 / decay, denomSafe, residual, effectiveGamma);
      events := events + [e];
      Accepted(past, start, inv, was, |x|, e, residual, denominator, workBuf[..], Rows(invA[..], |x|), theta[..]);
      res := Ok(());
    }

    /** `apply_drift_penalty` */
    method ApplyDriftPenalty(kDrift: real, alphaMax: real, gamma: real)
      requires Valid()
      modifies this`alpha, this`driftStepsRemaining, this`events, invA, sigmaSq
      ensures Valid() && driftStepsRemaining == driftDecayWindow
      ensures alpha == Min(old(alpha) * kDrift, alphaBase * alphaMax)
      ensures events == old(events) + (if Fresh() then [] else [Penalty(Clamp(gamma, 0.01, 1.0), theta.Length)])
      ensures ScaledAll(old(invA[..]), invA[..], 1.0 / Clamp(gamma, 0.01, 1.0))
      ensures SparedAll(old(sigmaSq[..]), sigmaSq[..], gamma)
    {
      hide Fits, ScaledAll, SparedAll, Rows;
      alpha := Min(alpha * kDrift, alphaBase * alphaMax);
      driftStepsRemaining := driftDecayWindow;
      var decay := Clamp(gamma, 0.01, 1.0);
      Scale(invA, 1.0 / decay);
      Spare(sigmaSq, gamma);
      if invA.Length == theta.Length * theta.Length {
        Penalised(events, start, old(invA[..]), theta[..], theta.Length, decay, invA[..]);
        events := events + [Penalty(decay, theta.Length)];
      }
    }

    /** `score`; `sqrt` is the square root of the machine. */
    method Score(x: seq<real>, cost: real, cloud: bool, sqrt: real -> real) returns (res: Result<real, Error>)
      requires Valid()
      ensures |x| != theta.Length ==> res == Err(DimensionMismatch(theta.Length, |x|))
      ensures |x| == theta.Length && !Fresh() ==>
        var variance := Quadratic(Rows(invA[..], |x|), x);
        variance >= 0.0 &&
        res == Ok(Bound(Dot(theta[..], x), alpha, sqrt(variance), lambda, cost, if cloud then mu else 0.0)) &&
        (IsRoot(sqrt) ==>
          IsUpperBound(res.value, Dot(theta[..], x), alpha, variance, lambda, cost, if cloud then mu else 0.0))
      ensures |x| == theta.Length && Fresh() ==>
        var variance := DiagonalVariance(sigmaSq[..], x, |x|);
        variance >= 0.0 &&
        res == Ok(Bound(Dot(theta[..], x), alpha, sqrt(variance), lambda, cost, if cloud then mu else 0.0)) &&
        (IsRoot(sqrt) ==>
          IsUpperBound(res.value, Dot(theta[..], x), alpha, variance, lambda, cost, if cloud then mu else 0.0))
    {
      hide Fits, Rows, Dot, Quadratic, DiagonalVariance, Bound, IsUpperBound;
      if |x| != theta.Length {
        return Err(DimensionMismatch(theta.Length, |x|));
      }
      var dot := DotProduct(theta[..], x);
      var variance;
      if invA.Length == theta.Length * theta.Length {
        variance := Variance(invA, x);
        VarianceNeverNegative(events, start, Rows(invA[..], |x|), theta[..], |x|, x);
        if variance < 0.0 {
          return Err(NonFiniteVariance(variance));
        }
      } else {
        variance := SumOfQuotients(sigmaSq, x);
        DiagonalNeverNegative(sigmaSq[..], x, |x|);
      }
      var privacyPenalty := if cloud then mu else 0.0;
      res := Ok(Bound(dot, alpha, sqrt(variance), lambda, cost, privacyPenalty));
      if IsRoot(sqrt) {
        BoundIsUpper(dot, alpha, variance, sqrt(variance), lambda, cost, privacyPenalty);
      }
    }
  }

  lemma AdjustedIs(rOutcome: real, cost: real, cloud: bool, price: real, mu: real, r: real)
    ensures r == rOutcome - price * cost - (if cloud then mu else 0.0) ==>
      r == Adjusted(rOutcome, cost, cloud, price, mu)
  {
  }

  // The event of an update, written out.
  lemma EventIs(bandit: BanditProfileState, x: seq<real>, rOutcome: real, cost: real, cloud: bool)
    ensures bandit.EventOf(x, rOutcome, cost, cloud) == Event(
      Max(if bandit.driftStepsRemaining > 0 then bandit.driftGamma else bandit.gamma, 0.00001), 1.0, x,
      rOutcome - bandit.lambda * cost - (if cloud then bandit.mu else 0.0))
  {
  }

  // The upper confidence bound, less what the profile costs.
  function Bound(dot: real, alpha: real, deviation: real, price: real, cost: real, privacyPenalty: real): real {
    dot + alpha * deviation - price * cost - privacyPenalty
  }

  // `v`, with what was charged added back, lies above the estimate `dot` by alpha standard deviations.
  ghost predicate IsUpperBound(v: real, dot: real, alpha: real, variance: real, price: real, cost: real,
                               penalty: real)
  {
    var width := v + price * cost + penalty - dot;
    && Times(width, width) == Times(alpha, alpha) * variance
    && (alpha >= 0.0 ==> width >= 0.0) && (alpha <= 0.0 ==> width <= 0.0)
    && (alpha > 0.0 && variance > 0.0 ==> width > 0.0)
  }

  lemma BoundIsUpper(dot: real, alpha: real, variance: real, deviation: real, price: real, cost: real, penalty: real)
    requires deviation >= 0.0 && Times(deviation, deviation) == variance
    ensures IsUpperBound(Bound(dot, alpha, deviation, price, cost, penalty), dot, alpha, variance, price, cost,
      penalty)
  {
    var width := alpha * deviation;
    assert width * width == alpha * alpha * (deviation * deviation);
    assert variance > 0.0 ==> deviation > 0.0;
    WidthSign(alpha, deviation);
  }

  lemma WidthSign(alpha: real, deviation: real)
    requires deviation >= 0.0
    ensures alpha >= 0.0 ==> alpha * deviation >= 0.0
    ensures alpha <= 0.0 ==> alpha * deviation <= 0.0
    ensures alpha > 0.0 && deviation > 0.0 ==> alpha * deviation > 0.0
  {
  }

  /** Such a bound leaves no choice, and what is charged comes off it in full: of two scores that differ in the
      charge alone, the one charged more is lower by just the difference. */
  lemma ChargedInFull(v: real, v': real, dot: real, alpha: real, variance: real, price: real, cost: real,
                      penalty: real, cost': real, penalty': real)
    requires IsUpperBound(v, dot, alpha, variance, price, cost, penalty)
    requires IsUpperBound(v', dot, alpha, variance, price, cost', penalty')
    ensures v - v' == price * (cost' - cost) + (penalty' - penalty)
  {
    var a, b := v + price * cost + penalty - dot, v' + price * cost' + penalty' - dot;
    assert a * a - b * b == (a - b) * (a + b);
    SquareSign(a);
    SquareSign(b);
    if a != b { NoZeroProduct(a - b, a + b); }
  }

  lemma NoZeroProduct(x: real, y: real)
    requires x * y == 0.0 && x != 0.0
    ensures y == 0.0
  {
  }

  function Penalty(decay: real, d: nat): Event {
    Event(decay, 0.0, Zeros(d), 0.0)
  }

  function Spared(sigmaSq: real, gamma: real): real {
    Max(sigmaSq * gamma, 1.0)
  }

  ghost predicate SparedAll(sigmaSq: seq<real>, sigmaSq': seq<real>, gamma: real) {
    |sigmaSq'| == |sigmaSq| && forall i :: 0 <= i < |sigmaSq| ==> sigmaSq'[i] == Spared(sigmaSq[i], gamma)
  }

  method Spare(sigmaSq: array<real>, gamma: real)
    modifies sigmaSq
    ensures SparedAll(old(sigmaSq[..]), sigmaSq[..], gamma)
  {
    hide Spared;
    var k := 0;
    while k < sigmaSq.Length
      invariant 0 <= k <= sigmaSq.Length
      invariant forall i :: 0 <= i < k ==> sigmaSq[i] == Spared(old(sigmaSq[i]), gamma)
      invariant forall i :: k <= i < sigmaSq.Length ==> sigmaSq[i] == old(sigmaSq[i])
    {
      sigmaSq[k] := Spared(sigmaSq[k], gamma);
      k := k + 1;
    }
  }

  // Scaling the inverse keeps it in step with the regression, whose estimate does not move.
  lemma Penalised(events: seq<Event>, start: Vector, m: seq<real>, theta: Vector, d: nat, decay: real, m': seq<real>)
    requires |m| == d * d && decay > 0.0 && ScaledAll(m, m', 1.0 / decay)
    requires Fits(events, start, Rows(m, d), theta, d, 1.0) && |theta| == d
    ensures Fits(events + [Penalty(decay, d)], start, Rows(m', d), theta, d, 1.0)
  {
    hide Fits, Updated, Denominator, Direction, Dot;
    var e := Penalty(decay, d);
    forall i, j | 0 <= i < d && 0 <= j < d ensures Rows(m', d)[i][j] == Rows(m, d)[i][j] * (1.0 / decay) {
      RowBounds(d, i);
      assert Rows(m, d)[i][j] == m[i * d + j] && Rows(m', d)[i][j] == m'[i * d + j];
    }
    ScaledIsUpdated(Rows(m, d), decay, d, Rows(m', d));
    FitsNext(events, start, Rows(m, d), theta, d, 1.0, e, 0.0);
    assert Lin(1.0, theta, 0.0, Direction(Rows(m, d), decay, e.x)) == theta;
  }

  function DiagonalVariance(sigmaSq: seq<real>, x: seq<real>, n: nat): real
    requires n <= |sigmaSq| && n <= |x|
  {
    if n == 0 then 0.0
    else DiagonalVariance(sigmaSq, x, n - 1) + x[n - 1] * x[n - 1] / Max(sigmaSq[n - 1], 0.00000001)
  }

  lemma {:induction false} DiagonalNeverNegative(sigmaSq: seq<real>, x: seq<real>, n: nat)
    requires n <= |sigmaSq| && n <= |x|
    ensures DiagonalVariance(sigmaSq, x, n) >= 0.0
  {
    if n > 0 {
      DiagonalNeverNegative(sigmaSq, x, n - 1);
      SquareSign(x[n - 1]);
      QuotientNotNegative(x[n - 1] * x[n - 1], Max(sigmaSq[n - 1], 0.00000001));
    }
  }

  lemma QuotientNotNegative(a: real, b: real)
    requires a >= 0.0 && b > 0.0
    ensures a / b >= 0.0
  {
  }

  // The diagonal matrix with the inverse of `sigmaSq`, which is kept away from zero.
  function InverseDiagonal(sigmaSq: seq<real>): (m: Matrix)
    ensures Square(m, |sigmaSq|)
  {
    seq(|sigmaSq|, i requires 0 <= i < |sigmaSq| =>
      seq(|sigmaSq|, j => if i == j then 1.0 / Max(sigmaSq[i], 0.00000001) else 0.0))
  }

  /** The fallback's variance is the same quadratic form, for the inverse of the diagonal alone. */
  lemma DiagonalIsQuadratic(sigmaSq: seq<real>, x: seq<real>)
    requires |sigmaSq| == |x|
    ensures DiagonalVariance(sigmaSq, x, |x|) == Quadratic(InverseDiagonal(sigmaSq), x)
  {
    DiagonalTo(sigmaSq, x, |x|);
  }

  lemma {:induction false} DiagonalTo(sigmaSq: seq<real>, x: seq<real>, n: nat)
    requires |sigmaSq| == |x| && n <= |x|
    ensures DiagonalVariance(sigmaSq, x, n) == DotTo(x, Apply(InverseDiagonal(sigmaSq), x), n)
  {
    hide Max, InverseDiagonal;
    if n > 0 {
      DiagonalTo(sigmaSq, x, n - 1);
      RowOfDiagonal(sigmaSq, x, n - 1, |x|);
      KeptFromZero(sigmaSq[n - 1]);
      QuotientTwice(x[n - 1], Max(sigmaSq[n - 1], 0.00000001));
    }
  }

  lemma {:induction false} RowOfDiagonal(sigmaSq: seq<real>, x: seq<real>, i: nat, n: nat)
    requires |sigmaSq| == |x| && i < |x| && n <= |x|
    ensures DotTo(InverseDiagonal(sigmaSq)[i], x, n) ==
      if i < n then 1.0 / Max(sigmaSq[i], 0.00000001) * x[i] else 0.0
  {
    if n > 0 { RowOfDiagonal(sigmaSq, x, i, n - 1); }
  }

  lemma KeptFromZero(s: real)
    ensures Max(s, 0.00000001) > 0.0
  {
  }

  lemma QuotientTwice(x: real, s: real)
    requires s > 0.0
    ensures x * x / s == x * (1.0 / s * x)
  {
  }

  /** The diagonal is kept at one at least and covers that of the Gram matrix: an update, and a penalty, that finds
      it so leaves it so; without discount an update keeps the two equal. */
  lemma DiagonalCovers(a: Matrix, sigmaSq: real, gamma: real, x: Vector, i: nat)
    requires i < |x| && Square(a, |x|) && a[i][i] <= sigmaSq && sigmaSq >= 1.0 && gamma >= 0.00001
    ensures Spread(sigmaSq, gamma, x[i]) >= 1.0 && Spared(sigmaSq, gamma) >= 1.0
    ensures RankOne(Decay(gamma), a, 1.0, x)[i][i] <= Spread(sigmaSq, gamma, x[i])
    ensures gamma == 1.0 && a[i][i] == sigmaSq ==> RankOne(1.0, a, 1.0, x)[i][i] == Spread(sigmaSq, gamma, x[i])
    ensures RankOne(gamma, a, 0.0, Zeros(|x|))[i][i] <= Spared(sigmaSq, gamma)
  {
    assert Decay(gamma) == gamma;
    OnDiagonal(a, gamma, 1.0, x, i);
    OnDiagonal(a, gamma, 0.0, Zeros(|x|), i);
    DiagonalStep(a[i][i], sigmaSq, gamma, x[i]);
  }

  lemma OnDiagonal(a: Matrix, s: real, t: real, x: Vector, i: nat)
    requires i < |x| && Square(a, |x|)
    ensures RankOne(s, a, t, x)[i][i] == s * a[i][i] + t * x[i] * x[i]
  {
    assert RankOne(s, a, t, x)[i] == RankOneRow(s, a, t, x, i);
  }

  lemma DiagonalStep(a: real, sigmaSq: real, gamma: real, x: real)
    requires a <= sigmaSq && sigmaSq >= 1.0 && gamma >= 0.00001
    ensures Spread(sigmaSq, gamma, x) >= 1.0 && Spared(sigmaSq, gamma) >= 1.0
    ensures gamma * a + 1.0 * x * x <= Spread(sigmaSq, gamma, x)
    ensures gamma == 1.0 && a == sigmaSq ==> 1.0 * a + 1.0 * x * x == Spread(sigmaSq, gamma, x)
    ensures gamma * a + 0.0 * 0.0 * 0.0 <= Spared(sigmaSq, gamma)
  {
    hide Spread, Spared;
    SquareSign(x);
    SparedBounds(a, sigmaSq, gamma);
    SpreadIs(sigmaSq, gamma, x, Times(x, x));
  }

  lemma SparedBounds(a: real, sigmaSq: real, gamma: real)
    requires a <= sigmaSq && sigmaSq >= 1.0 && gamma >= 0.00001
    ensures Spared(sigmaSq, gamma) >= 1.0 && Spared(sigmaSq, gamma) >= gamma * a
    ensures gamma == 1.0 ==> Spared(sigmaSq, gamma) == sigmaSq
  {
    InOrder(gamma, a, sigmaSq);
  }

  lemma InOrder(s: real, x: real, y: real)
    requires s > 0.0 && x <= y
    ensures s * x <= y * s
  {
  }

  lemma SpreadIs(sigmaSq: real, gamma: real, x: real, square: real)
    requires square == x * x
    ensures Spread(sigmaSq, gamma, x) == Spared(sigmaSq, gamma) + square
  {
    hide Spared;
  }

  method SumOfQuotients(sigmaSq: array<real>, x: seq<real>) returns (s: real)
    requires sigmaSq.Length == |x|
    ensures s == DiagonalVariance(sigmaSq[..], x, |x|)
  {
    s := 0.0;
    var i := 0;
    while i < |x|
      invariant 0 <= i <= |x|
      invariant s == DiagonalVariance(sigmaSq[..], x, i)
    {
      s := s + x[i] * x[i] / Max(sigmaSq[i], 0.00000001);
      i := i + 1;
    }
  }

  /** The quadratic form x . A^-1 x of `score`. */
  method Variance(invA: array<real>, x: seq<real>) returns (s: real)
    requires invA.Length == |x| * |x|
    ensures s == Quadratic(Rows(invA[..], |x|), x)
  {
    hide DotTo, Apply;
    var d := |x|;
    ghost var inv := Rows(invA[..], d);
    DotToNone(x, Apply(inv, x));
    s := 0.0;
    var i := 0;
    while i < d
      invariant 0 <= i <= d
      invariant s == DotTo(x, Apply(inv, x), i)
    {
      RowBounds(d, i);
      var rowDot := DotProduct(invA[i * d..i * d + d], x);
      ApplyEntry(inv, x, i);
      DotToNext(x, Apply(inv, x), i);
      s := s + x[i] * rowDot;
      i := i + 1;
    }
  }

  /** In every state the learner can reach, `score` never meets a negative variance. */
  lemma VarianceNeverNegative(events: seq<Event>, start: Vector, inv: Matrix, theta: Vector, d: nat, x: Vector)
    requires Fits(events, start, inv, theta, d, 1.0) && |x| == d
    ensures Quadratic(inv, x) >= 0.0
  {
    hide Gram, Targets, Quadratic;
    NonNegative(inv, x);
  }

  lemma DenominatorIs(inv: Matrix, e: Event, v: Vector, den: real)
    requires e.decay > 0.0 && Square(inv, |e.x|) && |v| == |e.x| && e.weight == 1.0
    requires v == Direction(inv, e.decay, e.x) && den == 1.0 + Dot(e.x, v)
    ensures Denominator(inv, e) == den
  {
  }

  lemma DenominatorPositive(past: seq<Event>, start: Vector, inv: Matrix, theta: Vector, d: nat, e: Event)
    requires Fits(past, start, inv, theta, d, 1.0) && GoodEvent(e, d)
    ensures Denominator(inv, e) >= 1.0
  {
    hide Gram, Targets, Denominator, Symmetric, PositiveDefinite, Inverse;
    DenominatorAtLeastOne(Gram(past, d, 1.0), inv, e, d);
  }

  lemma UpdatedForm(inv: Matrix, e: Event, den: real, v: Vector)
    requires e.decay > 0.0 && Square(inv, |e.x|) && e.weight == 1.0
    requires v == Direction(inv, e.decay, e.x) && Denominator(inv, e) == den && den >= 1.0
    ensures Updated(inv, e) == RankOne(1.0 / e.decay, inv, -(1.0 / den), v)
  {
  }

  // What the row loop has written is the next state of the regression.
  lemma Accepted(past: seq<Event>, start: Vector, inv: Matrix, theta: Vector, d: nat, e: Event,
                 residual: real, den: real, v: Vector, inv': Matrix, theta': Vector)
    requires Fits(past, start, inv, theta, d, 1.0) && GoodEvent(e, d) && e.weight == 1.0 && Square(inv, d)
    requires v == Direction(inv, e.decay, e.x) && Denominator(inv, e) == den && den >= 1.0
    requires residual == e.target - Dot(theta, e.x)
    requires inv' == RankOne(1.0 / e.decay, inv, -(1.0 / den), v)
    requires |theta| == d && GainedAll(theta, theta', residual, v, den)
    ensures Fits(past + [e], start, inv', theta', d, 1.0)
  {
    hide Fits, Direction, Denominator, RankOne, Dot, Updated, Gained;
    var gain := residual / den;
    GainIs(residual, den, e);
    FitsNext(past, start, inv, theta, d, 1.0, e, gain);
    forall i | 0 <= i < d ensures theta'[i] == Lin(1.0, theta, gain, v)[i] {
      GainedIs(theta[i], residual, v[i], den);
    }
    assert theta' == Lin(1.0, theta, gain, v);
    UpdatedForm(inv, e, den, v);
  }

  lemma GainIs(residual: real, den: real, e: Event)
    requires den >= 1.0 && e.weight == 1.0
    ensures residual / den * den == e.weight * residual
  {
  }

  lemma GainedIs(theta: real, residual: real, v: real, den: real)
    requires den >= 1.0
    ensures Gained(theta, residual, v, den) == 1.0 * theta + residual / den * v
  {
  }

  lemma DirectionEntry(inv: Matrix, decay: real, x: Vector, i: nat)
    requires decay > 0.0 && Square(inv, |x|) && i < |x|
    ensures Direction(inv, decay, x)[i] == 1.0 / decay * Dot(inv[i], x)
  {
  }

  /** Step 1 of `update`: v = A^-1 x / decay in the work buffer, and x . v. */
  method Discount(invA: array<real>, x: seq<real>, decay: real, workBuf: array<real>) returns (xtv: real)
    requires invA.Length == |x| * |x| && workBuf.Length == |x| && decay > 0.0 && workBuf != invA
    modifies workBuf
    ensures workBuf[..] == Direction(Rows(invA[..], |x|), decay, x)
    ensures xtv == Dot(x, workBuf[..])
  {
    hide Direction, DotTo;
    var d := |x|;
    ghost var inv := Rows(invA[..], d);
    var gammaInv := 1.0 / decay;
    xtv := 0.0;
    DotToNone(x, Direction(inv, decay, x));
    var i := 0;
    while i < d
      invariant 0 <= i <= d
      invariant invA[..] == old(invA[..])
      invariant forall k :: 0 <= k < i ==> workBuf[k] == Direction(inv, decay, x)[k]
      invariant xtv == DotTo(x, Direction(inv, decay, x), i)
    {
      RowBounds(d, i);
      var rowDot := DotProduct(invA[i * d..i * d + d], x);
      DirectionEntry(inv, decay, x, i);
      DotToNext(x, Direction(inv, decay, x), i);
      var vi := gammaInv * rowDot;
      workBuf[i] := vi;
      xtv := xtv + x[i] * vi;
      i := i + 1;
    }
    assert workBuf[..] == Direction(inv, decay, x);
  }

  /** Step 4 of `update`: the inverse, the estimate and the diagonal, row by row. */
  method ApplyGain(theta: array<real>, sigmaSq: array<real>, invA: array<real>, work: seq<real>, x: seq<real>,
                   gammaInv: real, denom: real, residual: real, effectiveGamma: real)
    requires invA.Length == |x| * |x| && theta.Length == sigmaSq.Length == |work| == |x| && denom > 0.0
    requires theta != sigmaSq && theta != invA && sigmaSq != invA
    modifies theta, sigmaSq, invA
    ensures Rows(invA[..], |x|) == RankOne(gammaInv, Rows(old(invA[..]), |x|), -(1.0 / denom), work)
    ensures GainedAll(old(theta[..]), theta[..], residual, work, denom)
    ensures SpreadAll(old(sigmaSq[..]), sigmaSq[..], effectiveGamma, x)
  {
    hide Gained, Spread, RankOne, Rows, PartlyUpdated;
    PartlyStart(Rows(invA[..], |x|), RankOne(gammaInv, Rows(invA[..], |x|), -(1.0 / denom), work), |x|);
    var d := |x|;
    ghost var inv := Rows(invA[..], d);
    ghost var inv' := RankOne(gammaInv, inv, -(1.0 / denom), work);
    var i := 0;
    while i < d
      invariant 0 <= i <= d
      invariant PartlyUpdated(Rows(invA[..], d), inv, inv', d, i)
      invariant forall k :: 0 <= k < i ==> theta[k] == Gained(old(theta[k]), residual, work[k], denom)
      invariant forall k :: i <= k < d ==> theta[k] == old(theta[k])
      invariant forall k :: 0 <= k < i ==> sigmaSq[k] == Spread(old(sigmaSq[k]), effectiveGamma, x[k])
      invariant forall k :: i <= k < d ==> sigmaSq[k] == old(sigmaSq[k])
    {
      UpdateRow(invA, d, i, work, gammaInv, denom, inv, inv');
      theta[i] := Gained(theta[i], residual, work[i], denom);
      sigmaSq[i] := Spread(sigmaSq[i], effectiveGamma, x[i]);
      i := i + 1;
    }
    PartlyEnd(Rows(invA[..], d), inv, inv', d);
  }

  // One turn of that loop, on the inverse.
  method UpdateRow(invA: array<real>, d: nat, i: nat, work: seq<real>, gammaInv: real, denom: real,
                   ghost inv: Matrix, ghost inv': Matrix)
    requires invA.Length == d * d && |work| == d && i < d && denom > 0.0
    requires Square(inv, d) && inv' == RankOne(gammaInv, inv, -(1.0 / denom), work)
    requires PartlyUpdated(Rows(invA[..], d), inv, inv', d, i)
    modifies invA
    ensures PartlyUpdated(Rows(invA[..], d), inv, inv', d, i + 1)
  {
    RowBounds(d, i);
    var ki := work[i] / denom;
    ghost var before := invA[..];
    FusedRowUpdate(invA, i * d, i * d + d, work, gammaInv, ki);
    assert Rows(before, d)[i] == before[i * d..i * d + d];
    assert inv'[i] == RankOneRow(gammaInv, inv, -(1.0 / denom), work, i);
    forall k | i * d <= k < i * d + d ensures invA[..][k] == inv'[i][k - i * d] {
      assert before[k] == inv[i][k - i * d];
      EntryOfUpdated(gammaInv, denom, inv[i][k - i * d], work[i], work[k - i * d]);
    }
    UpdateStep(before, invA[..], d, i, inv, inv');
  }
}
