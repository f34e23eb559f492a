/** The Lyapunov drift watcher of `crates/contextra-adapt/src/lyapunov.rs`, over the reals.  The natural
    logarithm is any function with the properties of `IsLog`. */
module Lyapunov {
  import opened Basics

  type Log = real -> real

  ghost predicate IsLog(ln: Log) {
    && (forall x: real, y: real :: x > 0.0 && y > 0.0 ==> ln(x * y) == ln(x) + ln(y))
    && (forall x: real, y: real :: 0.0 < x < y ==> ln(x) < ln(y))
    && (forall x: real :: x > 0.0 ==> ln(x) <= x - 1.0 && (ln(x) == x - 1.0 ==> x == 1.0))
  }

  lemma LogOfProduct(ln: Log, x: real, y: real, z: real)
    requires IsLog(ln) && x > 0.0 && y > 0.0 && z == x * y
    ensures ln(z) == ln(x) + ln(y)
  {
  }

  lemma LogOfOne(ln: Log)
    requires IsLog(ln)
    ensures ln(1.0) == 0.0
  {
  }

  // ---- The divergence of two score samples ------------------------------------------------------

  const NUM_BINS: nat := 10
  const MAX_BIN_KL_CONTRIBUTION: real := 10.0

  function Bin(score: real): (b: nat)
    ensures b < NUM_BINS
  {
    var b := (Clamp(score, 0.0, 1.0) * 10.0).Floor;
    if b < NUM_BINS - 1 then b else NUM_BINS - 1
  }

  /** The bins are the tenths of the unit interval, the first and the last taking in what lies outside. */
  lemma BinExactly(score: real, b: nat)
    requires b < 10
    ensures Bin(score) == b <==> (b == 0 || score >= b as real / 10.0) && (b == 9 || score < (b + 1) as real / 10.0)
  {
  }

  // How many of the scores fall in bin `b`.
  function Count(scores: seq<real>, b: nat): nat {
    if scores == [] then 0
    else Count(scores[..|scores| - 1], b) + (if Bin(scores[|scores| - 1]) == b then 1 else 0)
  }

  // The smoothed share of bin `b`.
  function Share(scores: seq<real>, b: nat): (r: real)
    ensures r > 0.0
  {
    (Count(scores, b) as real + 1.0) / (|scores| as real + 10.0)
  }

  function BinTerm(ln: Log, p: real, q: real): real
    requires p > 0.0 && q > 0.0
  {
    Min(p * ln(p / q), MAX_BIN_KL_CONTRIBUTION)
  }

  // The terms of the first `n` bins.
  function Terms(ln: Log, current: seq<real>, baseline: seq<real>, n: nat): real {
    if n == 0 then 0.0
    else Terms(ln, current, baseline, n - 1) + BinTerm(ln, Share(current, n - 1), Share(baseline, n - 1))
  }

  function Divergence(ln: Log, current: seq<real>, baseline: seq<real>): (d: real)
    ensures 0.0 <= d <= 100.0
  {
    Clamp(Terms(ln, current, baseline, NUM_BINS), 0.0, 100.0)
  }

  method CountScores(scores: seq<real>) returns (counts: array<nat>)
    ensures fresh(counts) && counts.Length == NUM_BINS
    ensures forall b :: 0 <= b < NUM_BINS ==> counts[b] == Count(scores, b)
  {
    counts := new nat[NUM_BINS](_ => 0);
    for i := 0 to |scores|
      invariant forall b :: 0 <= b < NUM_BINS ==> counts[b] == Count(scores[..i], b)
    {
      var bin := Bin(scores[i]);
      assert scores[..i + 1][..i] == scores[..i];
      counts[bin] := counts[bin] + 1;
    }
    assert scores[..|scores|] == scores;
  }

  // Scores counted over the first `n` bins.
  function Counted(scores: seq<real>, n: nat): nat {
    if n == 0 then 0 else Counted(scores, n - 1) + Count(scores, n - 1)
  }

  lemma {:induction false} CountedStep(scores: seq<real>, n: nat)
    requires scores != []
    ensures Counted(scores, n) == Counted(scores[..|scores| - 1], n) + (if Bin(scores[|scores| - 1]) < n then 1 else 0)
  {
    if n > 0 {
      CountedStep(scores, n - 1);
    }
  }

  lemma {:induction false} NoneCounted(n: nat)
    ensures Counted([], n) == 0
  {
    if n > 0 {
      NoneCounted(n - 1);
    }
  }

  /** Every score is counted in exactly one bin. */
  lemma {:induction false} AllCounted(scores: seq<real>)
    ensures Counted(scores, NUM_BINS) == |scores|
  {
    if scores == [] {
      NoneCounted(NUM_BINS);
    } else {
      AllCounted(scores[..|scores| - 1]);
      CountedStep(scores, NUM_BINS);
    }
  }

  function Shares(scores: seq<real>, n: nat): real {
    if n == 0 then 0.0 else Shares(scores, n - 1) + Share(scores, n - 1)
  }

  lemma {:induction false} SharesOf(scores: seq<real>, n: nat)
    ensures Shares(scores, n) == (Counted(scores, n) as real + n as real) / (|scores| as real + 10.0)
  {
    if n > 0 {
      SharesOf(scores, n - 1);
      Together(Counted(scores, n - 1) as real + (n - 1) as real, Count(scores, n - 1) as real + 1.0,
        |scores| as real + 10.0);
    }
  }

  lemma Together(x: real, y: real, z: real)
    requires z > 0.0
    ensures x / z + y / z == (x + y) / z
  {
  }

  /** The smoothed shares of any sample add up to one. */
  lemma SharesAreWhole(scores: seq<real>)
    ensures Shares(scores, NUM_BINS) == 1.0
  {
    hide Shares, Counted;
    AllCounted(scores);
    SharesOf(scores, NUM_BINS);
    Whole(Counted(scores, NUM_BINS) as real + NUM_BINS as real, |scores| as real + 10.0);
  }

  lemma Whole(x: real, y: real)
    requires x == y && y > 0.0
    ensures x / y == 1.0
  {
  }

  // A capped term is at least the difference of the shares, and equal to it only for equal shares.
  lemma TermAboveDifference(ln: Log, p: real, q: real)
    requires IsLog(ln) && 0.0 < p < 1.0 && q > 0.0
    ensures BinTerm(ln, p, q) >= p - q && (BinTerm(ln, p, q) == p - q <==> p == q)
  {
    hide IsLog;
    var x, y := p / q, q / p;
    Inverses(p, q, x, y);
    LogsOpposed(ln, x, y);
    Gap(p, q, y, ln(x));
  }

  lemma LogsOpposed(ln: Log, x: real, y: real)
    requires IsLog(ln) && x > 0.0 && y > 0.0 && x * y == 1.0
    ensures ln(x) >= 1.0 - y && (ln(x) == 1.0 - y <==> y == 1.0)
  {
    LogOfProduct(ln, x, y, 1.0);
    LogOfOne(ln);
  }

  lemma Gap(p: real, q: real, y: real, l: real)
    requires p > 0.0 && y * p == q && l >= 1.0 - y && (l == 1.0 - y <==> y == 1.0)
    ensures p * l >= p - q && (p * l == p - q <==> p == q)
  {
    var d := l - (1.0 - y);
    assert p * l - (p - q) == p * d;
    SameSignTimes(p, d);
    if p == q {
      OneIsNeutral(y, p);
    }
  }

  lemma SameSignTimes(p: real, d: real)
    requires p > 0.0 && d >= 0.0
    ensures p * d >= 0.0 && (p * d == 0.0 <==> d == 0.0)
  {
  }

  lemma OneIsNeutral(m: real, p: real)
    requires p > 0.0 && m * p == p
    ensures m == 1.0
  {
  }

  lemma Inverses(p: real, q: real, x: real, y: real)
    requires p > 0.0 && q > 0.0 && x == p / q && y == q / p
    ensures x > 0.0 && y > 0.0 && x * y == 1.0 && y * p == q
  {
  }

  lemma {:induction false} ShareBelowOne(scores: seq<real>, b: nat, n: nat)
    requires b < n
    ensures Share(scores, b) <= Shares(scores, n)
    ensures n > 1 ==> Share(scores, b) < Shares(scores, n)
  {
    if b < n - 1 {
      ShareBelowOne(scores, b, n - 1);
    } else if n > 1 {
      ShareBelowOne(scores, 0, n - 1);
    }
  }

  lemma {:induction false} TermsAboveZero(ln: Log, current: seq<real>, baseline: seq<real>, n: nat)
    requires IsLog(ln) && n <= NUM_BINS
    ensures Terms(ln, current, baseline, n) >= Shares(current, n) - Shares(baseline, n)
    ensures Terms(ln, current, baseline, n) == Shares(current, n) - Shares(baseline, n) <==>
      forall b :: 0 <= b < n ==> Share(current, b) == Share(baseline, b)
    ensures Terms(ln, current, baseline, n) <= 10.0 * n as real
  {
    hide IsLog, BinTerm, Share;
    if n > 0 {
      TermsAboveZero(ln, current, baseline, n - 1);
      SharesAreWhole(current);
      ShareBelowOne(current, n - 1, NUM_BINS);
      TermAboveDifference(ln, Share(current, n - 1), Share(baseline, n - 1));
      TermCapped(ln, Share(current, n - 1), Share(baseline, n - 1));
    }
  }

  lemma TermCapped(ln: Log, p: real, q: real)
    requires p > 0.0 && q > 0.0
    ensures BinTerm(ln, p, q) <= MAX_BIN_KL_CONTRIBUTION
  {
  }

  /** One bin counts its share times the logarithm of the quotient of the shares, and ten where that is more. */
  lemma TermExactly(ln: Log, p: real, q: real)
    requires p > 0.0 && q > 0.0
    ensures p * ln(p / q) < 10.0 ==> BinTerm(ln, p, q) == p * ln(p / q)
    ensures p * ln(p / q) >= 10.0 ==> BinTerm(ln, p, q) == 10.0
  {
  }

  /** The final clamp never changes anything - the capped terms already add up to something between 0 and
      100 - and the divergence is zero exactly when the two samples fill the bins in the same shares. */
  lemma DivergenceIsExact(ln: Log, current: seq<real>, baseline: seq<real>)
    requires IsLog(ln)
    ensures Divergence(ln, current, baseline) == Terms(ln, current, baseline, NUM_BINS)
    ensures Divergence(ln, current, baseline) == 0.0 <==>
      forall b :: 0 <= b < NUM_BINS ==> Share(current, b) == Share(baseline, b)
  {
    hide IsLog, Terms, Shares, Share;
    TermsAboveZero(ln, current, baseline, NUM_BINS);
    SharesAreWhole(current);
    SharesAreWhole(baseline);
  }

  /** `compute_kl_divergence` */
  method ComputeKlDivergence(ln: Log, current: seq<real>, baseline: seq<real>) returns (d: real)
    ensures d == Divergence(ln, current, baseline)
  {
    hide BinTerm, Count;
    var currentCounts := CountScores(current);
    var baselineCounts := CountScores(baseline);
    var alpha, k := 1.0, 10.0;
    var sum := 0.0;
    for i := 0 to NUM_BINS
      invariant sum == Terms(ln, current, baseline, i)
    {
      var p := (currentCounts[i] as real + alpha) / (|current| as real + k * alpha);
      var q := (baselineCounts[i] as real + alpha) / (|baseline| as real + k * alpha);
      assert p == Share(current, i) && q == Share(baseline, i);
      sum := sum + BinTerm(ln, p, q);
    }
    d := Clamp(sum, 0.0, 100.0);
  }

  // ---- The exponent of a full window ------------------------------------------------------------

  const TINY: real := 0.0000000001

  function Ratio(num: real, den: real): (r: real)
    ensures r >= TINY
  {
    Max(Abs(num / Max(den, TINY)), TINY)
  }

  function LogRatios(ln: Log, h: seq<real>, n: nat): real
    requires n < |h|
  {
    if n == 0 then 0.0 else LogRatios(ln, h, n - 1) + ln(Ratio(h[n], h[n - 1]))
  }

  function Exponent(ln: Log, h: seq<real>): real
    requires |h| >= 2
  {
    LogRatios(ln, h, |h| - 1) / ((|h| - 1) as real)
  }

  function Product(h: seq<real>, n: nat): (r: real)
    requires n < |h|
    ensures r > 0.0
  {
    if n == 0 then 1.0 else
      var before := Product(h, n - 1);
      var r := Ratio(h[n], h[n - 1]);
      assert before * r > 0.0 by { Positive(before, r); }
      before * r
  }

  lemma Positive(x: real, y: real)
    requires x > 0.0 && y > 0.0
    ensures x * y > 0.0
  {
  }

  lemma {:induction false} LogRatiosIsLog(ln: Log, h: seq<real>, n: nat)
    requires IsLog(ln) && n < |h|
    ensures LogRatios(ln, h, n) == ln(Product(h, n))
  {
    hide IsLog, Ratio, Product;
    ProductStep(h, 0);
    if n == 0 {
      LogOfOne(ln);
    } else {
      LogRatiosIsLog(ln, h, n - 1);
      ProductStep(h, n);
      LogOfProduct(ln, Product(h, n - 1), Ratio(h[n], h[n - 1]), Product(h, n));
    }
  }

  /** Whatever the window holds, the exponent is positive exactly when the product of its step ratios exceeds
      one. */
  lemma PositiveExponent(ln: Log, h: seq<real>)
    requires IsLog(ln) && |h| >= 2
    ensures Exponent(ln, h) > 0.0 <==> Product(h, |h| - 1) > 1.0
  {
    hide LogRatios, Product;
    LogRatiosIsLog(ln, h, |h| - 1);
    LogOfOne(ln);
    var p := Product(h, |h| - 1);
    assert ln(p) > 0.0 <==> p > 1.0;
    SameSign(LogRatios(ln, h, |h| - 1), (|h| - 1) as real);
  }

  lemma SameSign(x: real, y: real)
    requires y > 0.0
    ensures x / y > 0.0 <==> x > 0.0
  {
  }

  predicate IsTimes(x: real, r: real, y: real) {
    x == r * y
  }

  // Each entry is `r` times the one before it, and none is negligible.
  predicate GrowsBy(h: seq<real>, r: real) {
    && (forall i :: 0 <= i < |h| ==> h[i] >= 0.0000000001)
    && (forall i :: 0 < i < |h| ==> IsTimes(h[i], r, h[i - 1]))
  }

  lemma {:induction false} LogRatiosOfGrowth(ln: Log, h: seq<real>, r: real, n: nat)
    requires n < |h| && r >= 0.0000000001 && GrowsBy(h, r)
    ensures LogRatios(ln, h, n) == n as real * ln(r)
  {
    hide IsTimes, Ratio;
    if n > 0 {
      LogRatiosOfGrowth(ln, h, r, n - 1);
      RatioOfGrowth(h[n], h[n - 1], r);
      OneLogMore(n, ln(r));
    }
  }

  lemma OneLogMore(n: nat, l: real)
    requires n > 0
    ensures (n - 1) as real * l + l == n as real * l
  {
  }

  lemma RatioOfGrowth(num: real, den: real, r: real)
    requires den >= 0.0000000001 && r >= 0.0000000001 && IsTimes(num, r, den)
    ensures Ratio(num, den) == r
  {
    assert num / den == r;
  }

  /** A window whose divergences change by one factor throughout has that factor's logarithm as its exponent. */
  lemma ExponentOfGrowth(ln: Log, h: seq<real>, r: real)
    requires |h| >= 2 && r >= 0.0000000001 && GrowsBy(h, r)
    ensures Exponent(ln, h) == ln(r)
  {
    hide LogRatios, GrowsBy;
    LogRatiosOfGrowth(ln, h, r, |h| - 1);
    AverageOfEqual(|h| - 1, ln(r));
  }

  lemma AverageOfEqual(n: nat, l: real)
    requires n > 0
    ensures n as real * l / n as real == l
  {
  }

  // A divergence as a denominator sees it.
  function Floored(x: real): (r: real)
    ensures r >= TINY
  {
    Max(x, TINY)
  }

  // How far a step's ratio is from the quotient of its floored ends: one unless a floor interferes.
  function Correction(num: real, den: real): real {
    Max(num, TINY * Floored(den)) / Floored(num)
  }

  function Corrections(h: seq<real>, n: nat): real
    requires n < |h|
  {
    if n == 0 then 1.0 else Corrections(h, n - 1) * Correction(h[n], h[n - 1])
  }

  predicate NonNegative(h: seq<real>) {
    forall i :: 0 <= i < |h| ==> h[i] >= 0.0
  }

  lemma RatioCorrected(num: real, den: real)
    requires num >= 0.0
    ensures Ratio(num, den) * Floored(den) == Correction(num, den) * Floored(num)
  {
    var f := Floored(den);
    var r := num / f;
    assert r * f == num && r >= 0.0;
    LargerTimes(r, TINY, f);
    assert Correction(num, den) * Floored(num) == Max(num, TINY * f);
  }

  lemma LargerTimes(x: real, y: real, f: real)
    requires f > 0.0
    ensures Max(x, y) * f == Max(x * f, y * f)
  {
    if x < y { assert (y - x) * f > 0.0; } else { assert (x - y) * f >= 0.0; }
  }

  /** The product over any window telescopes to its ends, but for the corrections. */
  lemma {:induction false} Telescopes(h: seq<real>, n: nat)
    requires NonNegative(h) && n < |h|
    ensures Product(h, n) * Floored(h[0]) == Corrections(h, n) * Floored(h[n])
  {
    hide Product, Ratio, Correction, Floored;
    ProductStep(h, n);
    if n > 0 {
      Telescopes(h, n - 1);
      RatioCorrected(h[n], h[n - 1]);
      Chained(Product(h, n - 1), Ratio(h[n], h[n - 1]), Floored(h[0]), Floored(h[n - 1]), Corrections(h, n - 1),
              Correction(h[n], h[n - 1]), Floored(h[n]));
    }
  }

  lemma Chained(p: real, r: real, first: real, before: real, c: real, k: real, last: real)
    requires p * first == c * before && r * before == k * last
    ensures p * r * first == c * k * last
  {
    calc {
      p * r * first;
      r * (p * first);
      r * (c * before);
      c * (r * before);
      c * (k * last);
      c * k * last;
    }
  }

  lemma ProductStep(h: seq<real>, n: nat)
    requires n < |h|
    ensures n == 0 ==> Product(h, n) == 1.0
    ensures n > 0 ==> Product(h, n) == Product(h, n - 1) * Ratio(h[n], h[n - 1])
  {
  }

  /** What any window decides: drift is detected exactly when the newest divergence, corrected, exceeds the
      oldest, both read as at least 1e-10. */
  lemma EndsCorrected(ln: Log, h: seq<real>)
    requires IsLog(ln) && NonNegative(h) && |h| >= 2
    ensures Exponent(ln, h) > 0.0 <==> Corrections(h, |h| - 1) * Floored(h[|h| - 1]) > Floored(h[0])
  {
    hide IsLog, Exponent, Product, Corrections, Floored;
    var n := |h| - 1;
    PositiveExponent(ln, h);
    Telescopes(h, n);
    AboveOne(Product(h, n), Floored(h[0]), Corrections(h, n) * Floored(h[n]));
  }

  lemma AboveOne(p: real, y: real, z: real)
    requires y > 0.0 && p * y == z
    ensures z > y <==> p > 1.0
  {
    if p > 1.0 { assert (p - 1.0) * y > 0.0; } else { assert (1.0 - p) * y >= 0.0; }
  }

  // No divergence in the window is negligible, and none is negligible beside its predecessor.
  predicate Steady(h: seq<real>) {
    && |h| >= 2 && h[0] >= 0.0
    && forall i :: 1 <= i < |h| ==> h[i] >= TINY && h[i] >= TINY * Floored(h[i - 1])
  }

  lemma {:induction false} SteadyNeedsNone(h: seq<real>, n: nat)
    requires Steady(h) && n < |h|
    ensures Corrections(h, n) == 1.0
  {
    if n > 0 {
      SteadyNeedsNone(h, n - 1);
      assert h[n] >= TINY && h[n] >= TINY * Floored(h[n - 1]);
      assert Correction(h[n], h[n - 1]) == 1.0 by { ItselfOver(h[n], h[n - 1]); }
    }
  }

  lemma ItselfOver(num: real, den: real)
    requires num >= TINY && num >= TINY * Floored(den)
    ensures Correction(num, den) == 1.0
  {
    assert Max(num, TINY * Floored(den)) == num && Floored(num) == num;
    Whole(Max(num, TINY * Floored(den)), Floored(num));
  }

  lemma FloorOf(x: real)
    requires x >= TINY
    ensures Floored(x) == x
  {
  }

  /** In a steady window only the ends count: drift is detected exactly when the newest divergence exceeds
      the oldest. */
  lemma OnlyEndsCount(ln: Log, h: seq<real>)
    requires IsLog(ln) && Steady(h)
    ensures Exponent(ln, h) > 0.0 <==> h[|h| - 1] > Floored(h[0])
  {
    hide IsLog, Exponent, Corrections;
    SteadyNeedsNone(h, |h| - 1);
    EndsCorrected(ln, h);
    FloorOf(h[|h| - 1]);
  }

  /** When the divergence vanishes in the middle of a window of two, the oldest does not matter at all. */
  lemma VanishingResets(ln: Log, oldest: real, newest: real)
    requires IsLog(ln) && oldest >= 0.0 && newest >= 0.0
    ensures Exponent(ln, [oldest, 0.0, newest]) > 0.0 <==> newest > 1.0
  {
    hide IsLog, Exponent, Correction, Floored;
    var h := [oldest, 0.0, newest];
    EndsCorrected(ln, h);
    VanishedCorrection(oldest);
    LastCorrection(newest);
    CorrectionsStep(h, 1);
    CorrectionsStep(h, 2);
    AfterVanishing(Floored(oldest), Correction(newest, 0.0), Corrections(h, 2), Floored(newest),
      Max(newest, TINY * TINY));
  }

  lemma CorrectionsStep(h: seq<real>, n: nat)
    requires 0 < n < |h|
    ensures Corrections(h, n) == Corrections(h, n - 1) * Correction(h[n], h[n - 1]) && Corrections(h, 0) == 1.0
  {
  }

  lemma VanishedCorrection(den: real)
    ensures Correction(0.0, den) == Floored(den)
  {
    assert TINY * Floored(den) / TINY == Floored(den);
  }

  lemma LastCorrection(num: real)
    ensures Correction(num, 0.0) * Floored(num) == Max(num, TINY * TINY)
  {
  }

  lemma AfterVanishing(f: real, c: real, all: real, last: real, top: real)
    requires f > 0.0 && c * last == top && all == f * c
    ensures all * last > f <==> top > 1.0
  {
    assert all * last == f * (c * last);
    AboveOne(top, f, all * last);
  }

  // ---- The watcher ------------------------------------------------------------------------------

  datatype LyapunovResult =
    | Stable(exponent: real)
    | DriftDetected(exponent: real, divergence: real)
    | InsufficientData

  // The last `n` elements.
  function LastOf<T>(s: seq<T>, n: nat): seq<T> {
    if |s| <= n then s else s[|s| - n..]
  }

  // What a window of size `w` whose newest divergence has just been added reports.
  function Verdict(ln: Log, h: seq<real>, w: nat): LyapunovResult
    requires w >= 1 && h != []
  {
    if |h| <= w then InsufficientData
    else if Exponent(ln, h) > 0.0 then DriftDetected(Exponent(ln, h), h[|h| - 1])
    else Stable(Exponent(ln, h))
  }

  class LyapunovDriftWatcher {
    const windowSize: nat
    var divergenceHistory: seq<real>
    var baseline: seq<real>
    var latestResult: Option<LyapunovResult>
    // All divergences computed since the baseline was last set.
    ghost var divergences: seq<real>

    ghost predicate Valid()
      reads this
    {
      && windowSize >= 1
      && divergenceHistory == LastOf([0.0] + divergences, windowSize + 1)
      && (baseline == [] ==> divergences == [] && latestResult in {None, Some(InsufficientData)})
    }

    constructor (windowSize: nat)
      ensures Valid() && this.windowSize == (if windowSize < 1 then 1 else windowSize)
      ensures baseline == [] && latestResult == None && divergences == []
    {
      this.windowSize := if windowSize < 1 then 1 else windowSize;
      divergenceHistory := [0.0];
      baseline, latestResult, divergences := [], None, [];
    }

    method SetBaseline(scores: seq<real>)
      requires Valid()
      modifies this
      ensures Valid() && baseline == scores && divergences == [] && latestResult == None
    {
      baseline := scores;
      divergenceHistory := [0.0];
      latestResult := None;
      divergences := [];
    }

    function Analyze(): LyapunovResult
      reads this
    {
      if latestResult.Some? then latestResult.value else InsufficientData
    }

    method ComputeLyapunovExponent(ln: Log) returns (e: real)
      requires Valid() && |divergenceHistory| == windowSize + 1
      ensures e == Exponent(ln, divergenceHistory)
    {
      var sum := 0.0;
      for i := 1 to windowSize + 1
        invariant sum == LogRatios(ln, divergenceHistory, i - 1)
      {
        var num := divergenceHistory[i];
        var den := Max(divergenceHistory[i - 1], 0.0000000001);
        var ratio := Max(Abs(num / den), 0.0000000001);
        sum := sum + ln(ratio);
      }
      e := sum / (windowSize as real);
    }

    /** `update`.  The baseline is the one that was set or, failing that, the scores of the first non-empty
        update, which counts as a measurement too only if it has at least 30 scores. */
    method Update(ln: Log, scores: seq<real>) returns (r: LyapunovResult)
      requires Valid()
      modifies this
      ensures Valid() && r == Analyze()
      ensures scores == [] ==> r == old(Analyze()) && baseline == old(baseline) && divergences == old(divergences)
      ensures scores != [] ==> baseline == if old(baseline) == [] then scores else old(baseline)
      ensures scores != [] && old(baseline) == [] && |scores| < 30 ==> r == InsufficientData && divergences == []
      ensures scores != [] && (old(baseline) != [] || |scores| >= 30) ==>
        && divergences == old(divergences) + [Divergence(ln, scores, baseline)]
        && r == Verdict(ln, divergenceHistory, windowSize)
        && (r.DriftDetected? ==> r.divergence == Divergence(ln, scores, baseline) && r.exponent > 0.0)
        && (r.Stable? ==> r.exponent <= 0.0)
    {
      hide Divergence, Exponent, LastOf;
      if baseline == [] {
        if scores == [] {
          r := InsufficientData;
          latestResult := Some(r);
          return;
        }
        baseline := baseline + scores;
        assert baseline == scores;
        if |baseline| < 30 {
          r := InsufficientData;
          latestResult := Some(r);
          return;
        }
      }
      if scores == [] {
        r := Analyze();
        return;
      }
      var d := ComputeKlDivergence(ln, scores, baseline);
      SlidesOn(divergences, d, windowSize + 1);
      divergences := divergences + [d];
      divergenceHistory := divergenceHistory + [d];
      if |divergenceHistory| > windowSize + 1 {
        divergenceHistory := divergenceHistory[1..];
      }
      assert divergenceHistory == LastOf([0.0] + divergences, windowSize + 1);
      if |divergenceHistory| <= windowSize {
        r := InsufficientData;
        latestResult := Some(r);
        return;
      }
      var exponent := ComputeLyapunovExponent(ln);
      r := if exponent > 0.0 then DriftDetected(exponent, d) else Stable(exponent);
      latestResult := Some(r);
    }
  }

  // Adding at the back and dropping at the front keeps the last `n`.
  lemma SlidesOn(ds: seq<real>, d: real, n: nat)
    requires n >= 2
    ensures var h := LastOf([0.0] + ds, n) + [d];
      && LastOf([0.0] + (ds + [d]), n) == (if |h| > n then h[1..] else h)
      && |h| <= n + 1
  {
    assert [0.0] + (ds + [d]) == ([0.0] + ds) + [d];
  }

  /** After a baseline has been set, exactly the first w - 1 measurements give no verdict. */
  lemma SilentUntilFull(ln: Log, ds: seq<real>, w: nat)
    requires w >= 1 && ds != []
    ensures Verdict(ln, LastOf([0.0] + ds, w + 1), w).InsufficientData? <==> |ds| <= w - 1
  {
  }

  /** What the measurements decide, once there are enough of them: the window is the last w + 1 of the anchor
      and the divergences, and drift is reported exactly when its newest, corrected, exceeds its oldest. */
  lemma DetectsExactly(ln: Log, ds: seq<real>, w: nat)
    requires IsLog(ln) && w >= 1 && |ds| >= w && NonNegative(ds)
    ensures var h := LastOf([0.0] + ds, w + 1);
      Verdict(ln, h, w).DriftDetected? <==> Corrections(h, w) * Floored(h[w]) > Floored(h[0])
  {
    hide IsLog, Exponent, Corrections;
    EndsCorrected(ln, LastOf([0.0] + ds, w + 1));
  }

  /** When none of them is negligible, that is to exceed the one `w` measurements before it. */
  lemma DetectsGrowth(ln: Log, ds: seq<real>, w: nat)
    requires IsLog(ln) && w >= 1 && |ds| > w && Steady(ds[|ds| - w - 1..])
    ensures Verdict(ln, LastOf([0.0] + ds, w + 1), w).DriftDetected? <==> ds[|ds| - 1] > Floored(ds[|ds| - w - 1])
  {
    hide IsLog, Exponent, Steady;
    var h := ds[|ds| - w - 1..];
    assert LastOf([0.0] + ds, w + 1) == h;
    OnlyEndsCount(ln, h);
  }

  /** The first full window still holds the anchor, which is read as almost nothing: when none of its
      divergences is negligible, it reports drift for any above 1e-10, even if they have been falling. */
  lemma FirstWindowAlarms(ln: Log, ds: seq<real>, w: nat)
    requires IsLog(ln) && w >= 1 && |ds| == w && Steady([0.0] + ds)
    ensures Verdict(ln, LastOf([0.0] + ds, w + 1), w).DriftDetected? <==> ds[w - 1] > 0.0000000001
  {
    hide IsLog, Exponent, Steady;
    OnlyEndsCount(ln, [0.0] + ds);
  }

  // ---- Growth that goes undetected --------------------------------------------------------------

  lemma TermsStep(ln: Log, current: seq<real>, baseline: seq<real>, n: nat)
    ensures Terms(ln, current, baseline, n + 1) ==
      Terms(ln, current, baseline, n) + BinTerm(ln, Share(current, n), Share(baseline, n))
    ensures Terms(ln, current, baseline, 0) == 0.0
  {
  }

  // Samples that differ from each other in bins 0 and 5 and nowhere else.
  lemma TermsOfTwo(ln: Log, current: seq<real>, baseline: seq<real>, t0: real, t5: real, t: real)
    requires BinTerm(ln, Share(current, 0), Share(baseline, 0)) == t0
    requires BinTerm(ln, Share(current, 5), Share(baseline, 5)) == t5
    requires forall b: nat :: b < NUM_BINS && b != 0 && b != 5 ==>
      BinTerm(ln, Share(current, b), Share(baseline, b)) == t
    ensures Terms(ln, current, baseline, NUM_BINS) == t0 + t5 + 8.0 * t
  {
    hide Terms, BinTerm, Share;
    TermsStep(ln, current, baseline, 0); TermsStep(ln, current, baseline, 1); TermsStep(ln, current, baseline, 2);
    TermsStep(ln, current, baseline, 3); TermsStep(ln, current, baseline, 4); TermsStep(ln, current, baseline, 5);
    TermsStep(ln, current, baseline, 6); TermsStep(ln, current, baseline, 7); TermsStep(ln, current, baseline, 8);
    TermsStep(ln, current, baseline, 9);
  }

  lemma SharesOfSome(b: nat)
    ensures Share([0.0], b) == (if b == 0 then 2.0 / 11.0 else 1.0 / 11.0)
    ensures Share([0.5], b) == (if b == 5 then 2.0 / 11.0 else 1.0 / 11.0)
    ensures Share([0.0, 0.5], b) == (if b == 0 || b == 5 then 1.0 / 6.0 else 1.0 / 12.0)
  {
    assert Bin(0.0) == 0 && Bin(0.5) == 5;
    assert [0.0][..0] == [] && [0.5][..0] == [] && [0.0, 0.5][..1] == [0.0];
    assert Count([], b) == 0;
    assert Count([0.0], b) == (if b == 0 then 1 else 0);
    assert Count([0.5], b) == (if b == 5 then 1 else 0);
    assert Count([0.0, 0.5], b) == (if b == 0 || b == 5 then 1 else 0);
  }

  // The divergence of a half-moved and of a moved score from where they were.
  lemma DivergencesOfSome(ln: Log)
    requires IsLog(ln)
    ensures Divergence(ln, [0.0, 0.5], [0.0]) == ln(11.0 / 12.0) + ln(2.0) / 6.0
    ensures Divergence(ln, [0.5], [0.0]) == ln(2.0) / 11.0
    ensures 0.5 <= ln(2.0) <= 1.0 && ln(11.0 / 12.0) <= -1.0 / 12.0
  {
    hide Share, Terms, Divergence, BinTerm, IsLog;
    forall b: nat { SharesOfSome(b); }
    SomeLogs(ln);
    DivergenceIsExact(ln, [0.0, 0.5], [0.0]);
    DivergenceIsExact(ln, [0.5], [0.0]);
    SomeTerms(ln);
    TermsOfTwo(ln, [0.5], [0.0], ln(0.5) / 11.0, 2.0 / 11.0 * ln(2.0), 0.0);
    TermsOfTwo(ln, [0.0, 0.5], [0.0], ln(11.0 / 12.0) / 6.0, ln(11.0 / 6.0) / 6.0, ln(11.0 / 12.0) / 12.0);
  }

  lemma SomeLogs(ln: Log)
    requires IsLog(ln)
    ensures ln(1.0) == 0.0 && ln(2.0) + ln(0.5) == 0.0 && ln(11.0 / 6.0) == ln(11.0 / 12.0) + ln(2.0)
    ensures ln(0.5) <= -0.5 && ln(2.0) <= 1.0 && ln(11.0 / 12.0) <= -1.0 / 12.0
  {
    LogOfOne(ln);
    LogOfProduct(ln, 2.0, 0.5, 1.0);
    LogOfProduct(ln, 11.0 / 12.0, 2.0, 11.0 / 6.0);
  }

  lemma SomeTerms(ln: Log)
    requires ln(1.0) == 0.0 && ln(0.5) <= 0.0 && ln(2.0) <= 1.0 && ln(11.0 / 12.0) <= 0.0 && ln(11.0 / 6.0) <= 1.0
    ensures BinTerm(ln, 1.0 / 11.0, 2.0 / 11.0) == ln(0.5) / 11.0
    ensures BinTerm(ln, 2.0 / 11.0, 1.0 / 11.0) == 2.0 / 11.0 * ln(2.0)
    ensures BinTerm(ln, 1.0 / 11.0, 1.0 / 11.0) == 0.0
    ensures BinTerm(ln, 1.0 / 6.0, 2.0 / 11.0) == ln(11.0 / 12.0) / 6.0
    ensures BinTerm(ln, 1.0 / 6.0, 1.0 / 11.0) == ln(11.0 / 6.0) / 6.0
    ensures BinTerm(ln, 1.0 / 12.0, 1.0 / 11.0) == ln(11.0 / 12.0) / 12.0
  {
    assert (1.0 / 11.0) / (2.0 / 11.0) == 0.5 && (2.0 / 11.0) / (1.0 / 11.0) == 2.0;
    assert (1.0 / 6.0) / (2.0 / 11.0) == 11.0 / 12.0 && (1.0 / 6.0) / (1.0 / 11.0) == 11.0 / 6.0;
    assert (1.0 / 12.0) / (1.0 / 11.0) == 11.0 / 12.0 && (1.0 / 11.0) / (1.0 / 11.0) == 1.0;
  }

  /** Scores that show it: with a baseline of one zero and a window of two, a batch that has half moved away, one
      that is back, and one that has moved away altogether.  The last divergence exceeds the first, and no drift
      is reported. */
  lemma VanishingHidesGrowth(ln: Log)
    requires IsLog(ln)
    ensures var ds := [Divergence(ln, [0.0, 0.5], [0.0]), Divergence(ln, [0.0], [0.0]), Divergence(ln, [0.5], [0.0])];
      ds[2] > Floored(ds[0]) && !Verdict(ln, LastOf([0.0] + ds, 3), 2).DriftDetected?
  {
    hide IsLog, Exponent, Divergence, Share;
    var ds := [Divergence(ln, [0.0, 0.5], [0.0]), Divergence(ln, [0.0], [0.0]), Divergence(ln, [0.5], [0.0])];
    DivergencesOfSome(ln);
    DivergenceIsExact(ln, [0.0], [0.0]);
    assert ([0.0] + ds)[1..] == [ds[0], 0.0, ds[2]];
    VanishingResets(ln, ds[0], ds[2]);
  }
}
