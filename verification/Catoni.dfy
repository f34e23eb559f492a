/** The Catoni/CUSUM drift detector of `crates/contextra-adapt/src/drift.rs`, over the reals. */
module Catoni {
  import opened Basics

  datatype Detector = Detector(mu: real, cusum: real, threshold: real, alpha: real, baseline: real)

  const SLACK: real := 0.05
  const MIN_THRESHOLD: real := 0.000001

  predicate Legal(d: Detector) {
    d.threshold >= MIN_THRESHOLD && 0.001 <= d.alpha <= 0.5 && d.cusum >= 0.0
  }

  // A detector that has seen nothing yet.
  predicate Fresh(d: Detector) {
    Legal(d) && d.mu == d.baseline && d.cusum == 0.0
  }

  /** The influence function. */
  function Psi(x: real): real {
    x / (1.0 + Abs(x))
  }

  function Moved(d: Detector, reward: real): real {
    d.mu + d.alpha * Psi(reward - d.mu)
  }

  function Accumulated(cusum: real, dev: real): real {
    if dev > SLACK then cusum + (dev - SLACK) else Max(cusum - 0.01, 0.0)
  }

  function Step(d: Detector, reward: real): Detector {
    var mu := Moved(d, reward);
    d.(mu := mu, cusum := Accumulated(d.cusum, Abs(mu - d.baseline)))
  }

  function After(d: Detector, rewards: seq<real>): Detector {
    if rewards == [] then d else Step(After(d, rewards[..|rewards| - 1]), rewards[|rewards| - 1])
  }

  predicate Signals(d: Detector) {
    d.cusum >= d.threshold
  }

  // No observation of the stream signals.
  ghost predicate NeverSignals(d: Detector, rewards: seq<real>) {
    forall n :: 1 <= n <= |rewards| ==> !Signals(After(d, rewards[..n]))
  }

  class CatoniDriftDetector {
    var catoniMu: real
    var cusumSum: real
    var threshold: real
    var alpha: real
    var baselineReward: real

    function Snapshot(): Detector
      reads this
    {
      Detector(catoniMu, cusumSum, threshold, alpha, baselineReward)
    }

    constructor (baselineReward: real, threshold: real, alpha: real)
      ensures Fresh(Snapshot()) && this.baselineReward == baselineReward
      ensures this.threshold == if threshold >= 0.000001 then threshold else 0.000001
      ensures this.alpha == if alpha < 0.001 then 0.001 else if alpha > 0.5 then 0.5 else alpha
    {
      catoniMu, cusumSum := baselineReward, 0.0;
      this.threshold, this.alpha := Max(threshold, MIN_THRESHOLD), Clamp(alpha, 0.001, 0.5);
      this.baselineReward := baselineReward;
    }

    method Observe(reward: real) returns (detected: bool)
      modifies this
      ensures Snapshot() == Step(old(Snapshot()), reward) && detected == Signals(Snapshot())
      ensures detected <==> cusumSum >= threshold
    {
      hide Psi;
      var x := reward - catoniMu;
      var psi := Psi(x);
      catoniMu := catoniMu + alpha * psi;
      assert catoniMu == Moved(old(Snapshot()), reward);
      var slack := 0.05;
      var dev := Abs(catoniMu - baselineReward);
      if dev > slack {
        cusumSum := cusumSum + (dev - slack);
      } else {
        cusumSum := Max(cusumSum - 0.01, 0.0);
      }
      detected := IsDrifting();
    }

    predicate IsDrifting()
      reads this
    {
      cusumSum >= threshold
    }

    method Reset()
      modifies this
      ensures old(Legal(Snapshot())) ==> Fresh(Snapshot())
      ensures Snapshot() == old(Snapshot()).(mu := baselineReward, cusum := 0.0)
    {
      cusumSum := 0.0;
      catoniMu := baselineReward;
    }
  }

  // ---- One observation --------------------------------------------------------------------------

  lemma PsiBounds(x: real)
    ensures Abs(Psi(x)) < 1.0 && Abs(Psi(x)) <= Abs(x)
    ensures (x >= 0.0 ==> Psi(x) >= 0.0) && (x <= 0.0 ==> Psi(x) <= 0.0)
  {
    var y, n := Psi(x), 1.0 + Abs(x);
    assert y * n == x;
    Quotients(Abs(x), n);
    if x >= 0.0 {
      assert y == Abs(x) / n;
    } else {
      assert y == -(Abs(x) / n);
    }
  }

  lemma Quotients(x: real, n: real)
    requires x >= 0.0 && n == 1.0 + x
    ensures 0.0 <= x / n < 1.0 && x / n <= x
  {
  }

  lemma Part(a: real, y: real, p: real)
    requires 0.0 < a < 1.0 && p == a * y
    ensures y >= 0.0 ==> 0.0 <= p <= y
    ensures y <= 0.0 ==> y <= p <= 0.0
    ensures Abs(y) < 1.0 ==> Abs(p) < a
  {
    Scaled(a, y, p);
    SignOf(y, a);
    SignOf(-y, a);
    SignOf(y, 1.0 - a);
    SignOf(-y, 1.0 - a);
    Short(a, y, p);
  }

  lemma Scaled(a: real, y: real, p: real)
    requires p == a * y
    ensures y * a == p && (-y) * a == -p && y * (1.0 - a) == y - p && (-y) * (1.0 - a) == p - y
  {
  }

  lemma Short(a: real, y: real, p: real)
    requires a > 0.0 && p == a * y
    ensures Abs(y) < 1.0 ==> Abs(p) < a
  {
    var above, below := 1.0 - y, 1.0 + y;
    SignOf(above, a);
    SignOf(below, a);
    assert above * a == a - p && below * a == a + p;
  }

  lemma SignOf(x: real, y: real)
    requires y > 0.0
    ensures (x > 0.0 <==> x * y > 0.0) && (x >= 0.0 <==> x * y >= 0.0)
  {
  }

  /** One observation, of any size, moves the estimate by less than alpha, towards the reward and not past
      it. */
  lemma MovesLittle(d: Detector, reward: real)
    requires Legal(d)
    ensures Abs(Moved(d, reward) - d.mu) < d.alpha
    ensures d.mu <= reward ==> d.mu <= Moved(d, reward) <= reward
    ensures d.mu >= reward ==> d.mu >= Moved(d, reward) >= reward
  {
    hide Psi;
    PsiBounds(reward - d.mu);
    var y, move := Psi(reward - d.mu), Moved(d, reward) - d.mu;
    Part(d.alpha, y, move);
  }

  /** By how much exactly: alpha times the distance, damped by one plus its size. */
  lemma MovesExactly(d: Detector, reward: real)
    ensures (Moved(d, reward) - d.mu) * (1.0 + Abs(reward - d.mu)) == d.alpha * (reward - d.mu)
  {
    var x := reward - d.mu;
    assert Psi(x) * (1.0 + Abs(x)) == x;
    assert d.alpha * Psi(x) * (1.0 + Abs(x)) == d.alpha * (Psi(x) * (1.0 + Abs(x)));
  }

  /** An estimate beyond the slack adds what it is beyond; one within takes off a hundredth, as far as there is. */
  lemma GathersExactly(d: Detector, reward: real)
    requires Legal(d)
    ensures var e := Step(d, reward);
      && (Abs(e.mu - d.baseline) > 0.05 ==> e.cusum - d.cusum == Abs(e.mu - d.baseline) - 0.05 > 0.0)
      && (Abs(e.mu - d.baseline) <= 0.05 ==> e.cusum <= d.cusum && d.cusum - e.cusum <= 0.01
                                             && (e.cusum == 0.0 || d.cusum - e.cusum == 0.01))
  {
    hide Moved;
  }

  lemma {:induction false} ParametersStay(d: Detector, rewards: seq<real>)
    requires Legal(d)
    ensures var e := After(d, rewards);
      Legal(e) && e.threshold == d.threshold && e.alpha == d.alpha && e.baseline == d.baseline
  {
    hide Moved;
    if rewards != [] {
      ParametersStay(d, rewards[..|rewards| - 1]);
    }
  }

  // ---- How fast it can signal -------------------------------------------------------------------

  // The farthest `n` observations can move the estimate.
  function Reach(alpha: real, n: nat): real {
    n as real * alpha
  }

  // The most `n` observations can have accumulated.
  function Reachable(alpha: real, n: nat): real {
    if n == 0 then 0.0 else Reachable(alpha, n - 1) + Max(0.0, Reach(alpha, n) - SLACK)
  }

  /** Whatever is observed, after `n` observations the estimate is within `Reach` of the baseline and the
      accumulator within `Reachable`. */
  lemma {:induction false} AccumulatesSlowly(d: Detector, rewards: seq<real>)
    requires Fresh(d)
    ensures var e, n := After(d, rewards), |rewards|;
      && Abs(e.mu - d.baseline) <= Reach(d.alpha, n)
      && e.cusum <= Reachable(d.alpha, n)
  {
    hide Moved, Reach;
    OneMore(d.alpha, 0);
    if rewards != [] {
      var n, before := |rewards|, rewards[..|rewards| - 1];
      AccumulatesSlowly(d, before);
      ParametersStay(d, before);
      MovesLittle(After(d, before), rewards[n - 1]);
      OneMore(d.alpha, n - 1);
      ReachableGrows(d.alpha, n - 1);
    }
  }

  lemma OneMore(a: real, n: nat)
    ensures Reach(a, n + 1) == Reach(a, n) + a && Reach(a, 0) == 0.0
  {
  }

  lemma {:induction false} ReachableGrows(alpha: real, n: nat)
    ensures 0.0 <= Reachable(alpha, n) <= Reachable(alpha, n + 1)
  {
    if n > 0 {
      ReachableGrows(alpha, n - 1);
    }
  }

  /** With the default parameters fewer than ten observations never signal. */
  lemma TenAreNeeded(d: Detector, rewards: seq<real>)
    requires Fresh(d) && d.alpha == 0.05 && d.threshold == 2.0 && |rewards| < 10
    ensures NeverSignals(d, rewards)
  {
    hide Reachable, After;
    forall n | 1 <= n <= |rewards| ensures !Signals(After(d, rewards[..n])) {
      AccumulatesSlowly(d, rewards[..n]);
      ParametersStay(d, rewards[..n]);
      ReachableByNine(n);
    }
  }

  lemma ReachableByNine(n: nat)
    requires n <= 9
    ensures Reachable(0.05, n) <= 1.8
  {
    ReachableStep(0); ReachableStep(1); ReachableStep(2); ReachableStep(3); ReachableStep(4);
    ReachableStep(5); ReachableStep(6); ReachableStep(7); ReachableStep(8);
  }

  lemma ReachableStep(n: nat)
    ensures Reachable(0.05, n + 1) == Reachable(0.05, n) + n as real * 0.05
    ensures Reachable(0.05, 0) == 0.0
  {
  }

  /** Ten can be enough, so the bound cannot be raised. */
  lemma {:induction false} TenCanSuffice(rewards: seq<real>)
    requires |rewards| == 10 && forall i :: 0 <= i < 10 ==> rewards[i] == 200.0
    ensures Signals(After(Detector(0.5, 0.0, 2.0, 0.05, 0.5), rewards))
  {
    hide After;
    LargeRewards(rewards, 10);
    assert rewards[..10] == rewards;
    LargeSum(10);
  }

  // What `n` large rewards accumulate at least.
  function Gathered(n: nat): real {
    if n <= 1 then 0.0 else Gathered(n - 1) + (n as real * 0.0495 - SLACK)
  }

  lemma LargeSum(n: nat)
    requires n == 10
    ensures Gathered(n) >= 2.0
  {
  }

  lemma {:induction false} LargeRewards(rewards: seq<real>, n: nat)
    requires n <= |rewards| == 10 && forall i :: 0 <= i < 10 ==> rewards[i] == 200.0
    ensures var d := Detector(0.5, 0.0, 2.0, 0.05, 0.5);
      var e := After(d, rewards[..n]);
      && e.alpha == 0.05 && e.baseline == 0.5 && e.threshold == 2.0 && e.cusum >= Gathered(n)
      && 0.5 + n as real * 0.0495 <= e.mu <= 0.5 + n as real * 0.05
  {
    hide Moved;
    if n > 0 {
      LargeRewards(rewards, n - 1);
      var d := Detector(0.5, 0.0, 2.0, 0.05, 0.5);
      assert rewards[..n][..n - 1] == rewards[..n - 1];
      LargeReward(After(d, rewards[..n - 1]));
    }
  }

  lemma LargeReward(e: Detector)
    requires e.alpha == 0.05 && 0.5 <= e.mu <= 1.0
    ensures e.mu + 0.0495 <= Moved(e, 200.0) <= e.mu + 0.05
  {
    var x := 200.0 - e.mu;
    var q := Psi(x);
    assert q * (1.0 + x) == x;
    Near(q, x);
  }

  lemma Near(q: real, x: real)
    requires q * (1.0 + x) == x && x >= 99.0
    ensures 0.99 <= q <= 1.0
  {
  }

  // ---- What never signals -----------------------------------------------------------------------

  predicate NearBaseline(d: Detector, reward: real) {
    Abs(reward - d.baseline) <= 0.05
  }

  // A quiet detector: nothing accumulated, and the estimate within the slack.
  predicate Quiet(d: Detector) {
    Legal(d) && d.cusum == 0.0 && Abs(d.mu - d.baseline) <= SLACK
  }

  lemma StaysQuiet(d: Detector, reward: real)
    requires Quiet(d) && NearBaseline(d, reward)
    ensures Quiet(Step(d, reward))
  {
    hide Moved;
    MovesLittle(d, reward);
  }

  lemma {:induction false} QuietThroughout(d: Detector, rewards: seq<real>, from: nat, n: nat)
    requires Legal(d) && from <= n <= |rewards| && Quiet(After(d, rewards[..from]))
    requires forall i :: from <= i < n ==> NearBaseline(d, rewards[i])
    ensures Quiet(After(d, rewards[..n]))
    decreases n
  {
    hide Step;
    if n > from {
      QuietThroughout(d, rewards, from, n - 1);
      ParametersStay(d, rewards[..n - 1]);
      assert rewards[..n][..n - 1] == rewards[..n - 1];
      StaysQuiet(After(d, rewards[..n - 1]), rewards[n - 1]);
    }
  }

  /** A stream of any length that stays within 0.05 of the baseline never signals, whatever the threshold. */
  lemma NearBaselineNeverSignals(d: Detector, rewards: seq<real>)
    requires Fresh(d) && forall i :: 0 <= i < |rewards| ==> NearBaseline(d, rewards[i])
    ensures NeverSignals(d, rewards)
  {
    forall n | 1 <= n <= |rewards| ensures !Signals(After(d, rewards[..n])) {
      QuietThroughout(d, rewards, 0, n);
      ParametersStay(d, rewards[..n]);
    }
  }

  /** What has accumulated fades: with the estimate and the rewards back within the slack, each observation takes a
      hundredth off, until nothing is left. */
  lemma {:induction false} Fades(d: Detector, rewards: seq<real>)
    requires Legal(d) && Abs(d.mu - d.baseline) <= 0.05
    requires forall i :: 0 <= i < |rewards| ==> NearBaseline(d, rewards[i])
    ensures var e := After(d, rewards);
      && Legal(e) && Abs(e.mu - d.baseline) <= 0.05 && e.baseline == d.baseline
      && e.cusum == Max(d.cusum - 0.01 * |rewards| as real, 0.0)
  {
    hide Moved;
    if rewards != [] {
      var before := rewards[..|rewards| - 1];
      Fades(d, before);
      ParametersStay(d, before);
      MovesLittle(After(d, before), rewards[|rewards| - 1]);
    }
  }

  lemma {:induction false} BaselineChangesNothing(d: Detector, rewards: seq<real>, n: nat)
    requires Fresh(d) && n <= |rewards| && forall i :: 0 <= i < n ==> rewards[i] == d.baseline
    ensures After(d, rewards[..n]) == d
  {
    if n > 0 {
      BaselineChangesNothing(d, rewards, n - 1);
      assert rewards[..n][..n - 1] == rewards[..n - 1];
      MovesLittle(d, d.baseline);
    }
  }

  /** For alpha up to 0.05 one outlier of any size, after rewards at the baseline and before rewards near it,
      never signals either. */
  lemma OneOutlierNeverSignals(d: Detector, rewards: seq<real>, at: nat)
    requires Fresh(d) && d.alpha <= SLACK && at < |rewards|
    requires forall i :: 0 <= i < at ==> rewards[i] == d.baseline
    requires forall i :: at < i < |rewards| ==> NearBaseline(d, rewards[i])
    ensures NeverSignals(d, rewards)
  {
    hide Moved;
    BaselineChangesNothing(d, rewards, at);
    assert rewards[..at + 1][..at] == rewards[..at];
    MovesLittle(d, rewards[at]);
    assert Quiet(After(d, rewards[..at + 1]));
    forall n | 1 <= n <= |rewards| ensures !Signals(After(d, rewards[..n])) {
      if n <= at {
        BaselineChangesNothing(d, rewards, n);
      } else {
        QuietThroughout(d, rewards, at + 1, n);
        ParametersStay(d, rewards[..n]);
      }
    }
  }
}
