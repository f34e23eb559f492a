/** The randomized logging policy and the inverse-propensity evaluator of
    `crates/contextra-adapt/src/offpolicy.rs`, over the reals. */
module OffPolicy {
  import opened Basics

  // ---- The logging policy -----------------------------------------------------------------------

  datatype Policy = Policy(epsilon: real, numActions: nat)

  predicate Legal(p: Policy) {
    0.0 <= p.epsilon <= 1.0 && p.numActions >= 1
  }

  /** `new` */
  function NewPolicy(epsilon: real, numActions: nat): (p: Policy)
    ensures Legal(p)
    ensures 0.0 <= epsilon <= 1.0 ==> p.epsilon == epsilon
    ensures (epsilon < 0.0 ==> p.epsilon == 0.0) && (epsilon > 1.0 ==> p.epsilon == 1.0)
    ensures p.numActions >= numActions && (numActions >= 1 ==> p.numActions == numActions)
    ensures numActions == 0 ==> p.numActions == 1
  {
    Policy(Clamp(epsilon, 0.0, 1.0), if numActions == 0 then 1 else numActions)
  }

  // What the policy reports for action `a`; nothing beyond its own actions.
  function Propensity(p: Policy, greedy: nat, a: nat): real
    requires Legal(p)
  {
    if a >= p.numActions then 0.0
    else p.epsilon / (p.numActions as real) + (if a == greedy then 1.0 - p.epsilon else 0.0)
  }

  /** `compute_propensities` */
  method ComputePropensities(p: Policy, greedy: nat) returns (ps: seq<real>)
    requires Legal(p)
    ensures |ps| == p.numActions && forall a :: 0 <= a < |ps| ==> ps[a] == Propensity(p, greedy, a)
  {
    ps := seq(p.numActions, _ => p.epsilon / (p.numActions as real));
    if greedy < |ps| {
      ps := ps[greedy := ps[greedy] + (1.0 - p.epsilon)];
    }
  }

  // The propensities of the first `n` actions together.
  function Mass(p: Policy, greedy: nat, n: nat): real
    requires Legal(p)
  {
    if n == 0 then 0.0 else Mass(p, greedy, n - 1) + Propensity(p, greedy, n - 1)
  }

  lemma {:induction false} MassOf(p: Policy, greedy: nat, n: nat)
    requires Legal(p) && n <= p.numActions
    ensures Mass(p, greedy, n) ==
      (n as real) * (p.epsilon / (p.numActions as real)) + (if greedy < n then 1.0 - p.epsilon else 0.0)
  {
    if n > 0 {
      MassOf(p, greedy, n - 1);
    }
  }

  /** The reported propensities are a probability distribution exactly when the greedy action is one of the
      policy's actions, or never taken. */
  lemma IsDistribution(p: Policy, greedy: nat)
    requires Legal(p)
    ensures Mass(p, greedy, p.numActions) == 1.0 <==> greedy < p.numActions || p.epsilon == 1.0
    ensures forall a: nat :: 0.0 <= Propensity(p, greedy, a) <= 1.0
  {
    MassOf(p, greedy, p.numActions);
    forall a: nat ensures 0.0 <= Propensity(p, greedy, a) <= 1.0 {
      ShareBounds(p.epsilon, p.numActions as real);
    }
  }

  lemma ShareBounds(e: real, k: real)
    requires e >= 0.0 && k >= 1.0
    ensures 0.0 <= e / k <= e && k * (e / k) == e
  {
  }

  lemma SharePositive(e: real, k: real)
    requires e > 0.0 && k >= 1.0
    ensures e / k > 0.0
  {
  }

  // The action taken when not exploring.
  function Usual(p: Policy, greedy: nat): (a: nat)
    requires Legal(p)
    ensures a < p.numActions
  {
    if greedy < p.numActions then greedy else 0
  }

  // ---- Choosing an action -----------------------------------------------------------------------

  const LARGEST_SAMPLE: real := 0.9999999

  /** `select_action` */
  function SelectAction(p: Policy, greedy: nat, random: real): (nat, real)
    requires Legal(p)
  {
    Select(p, greedy, Clamp(random, 0.0, LARGEST_SAMPLE))
  }

  // What it makes of the clamped sample: the action taken, and its reported propensity.
  function Select(p: Policy, greedy: nat, sample: real): (nat, real)
    requires Legal(p) && sample >= 0.0
  {
    if sample >= p.epsilon then
      var action := Usual(p, greedy);
      (action, Propensity(p, greedy, action))
    else
      var action := AsIndex(Stretched(p, sample));
      var clamped := if action < p.numActions then action else p.numActions - 1;
      (clamped, Propensity(p, greedy, clamped))
  }

  // An exploring sample, spread over the actions.
  function Stretched(p: Policy, sample: real): real
    requires p.epsilon > 0.0
  {
    sample / p.epsilon * (p.numActions as real)
  }

  // A cast to an unsigned integer.
  function AsIndex(x: real): nat {
    if x < 0.0 then 0 else x.Floor
  }

  datatype Span = Span(from: real, to: real)

  // The samples that pick action `a`: its share of the exploring samples, and all the others for the action
  // that is taken when not exploring.
  function Spans(p: Policy, greedy: nat, a: nat): seq<Span>
    requires Legal(p)
  {
    [Span(Mark(p, a), Mark(p, a + 1))] + (if a == Usual(p, greedy) then [Span(p.epsilon, 1.0)] else [])
  }

  // Where the exploring samples of action `a` begin.
  function Mark(p: Policy, a: nat): real
    requires Legal(p)
  {
    (a as real) * p.epsilon / (p.numActions as real)
  }

  predicate Covers(spans: seq<Span>, x: real) {
    exists i :: 0 <= i < |spans| && spans[i].from <= x < spans[i].to
  }

  function Length(spans: seq<Span>): real {
    if spans == [] then 0.0 else Length(spans[..|spans| - 1]) + (spans[|spans| - 1].to - spans[|spans| - 1].from)
  }

  // The probability of action `a`: how much of the unit interval its spans cover.
  function Chance(p: Policy, greedy: nat, a: nat): real
    requires Legal(p)
  {
    if a < p.numActions then Length(Spans(p, greedy, a)) else 0.0
  }

  // Where the quotient's floor puts a sample is where the marks put it.
  lemma BelowMark(p: Policy, sample: real, a: nat)
    requires Legal(p) && p.epsilon > 0.0
    ensures (a as real) <= Stretched(p, sample) <==> Mark(p, a) <= sample
  {
  }

  lemma Exploring(p: Policy, sample: real, a: nat)
    requires Legal(p) && 0.0 <= sample < p.epsilon && a < p.numActions
    ensures var i := AsIndex(Stretched(p, sample));
      i < p.numActions && (i == a <==> Mark(p, a) <= sample < Mark(p, a + 1))
  {
    hide Mark, Stretched;
    MarkBounds(p, a);
    MarkBounds(p, p.numActions - 1);
    BelowMark(p, sample, a);
    BelowMark(p, sample, a + 1);
    BelowMark(p, sample, 0);
    BelowMark(p, sample, p.numActions);
  }

  /** A sample picks action `a` exactly when, clamped, it falls in one of the action's spans.  Clamping makes no
      difference to samples below the clamp, nor, unless nearly all samples explore, to any others below 1. */
  lemma PicksOnSpans(p: Policy, greedy: nat, u: real, a: nat)
    requires Legal(p) && a < p.numActions
    ensures SelectAction(p, greedy, u).0 == a <==> Covers(Spans(p, greedy, a), Clamp(u, 0.0, LARGEST_SAMPLE))
    ensures 0.0 <= u < 1.0 && (u <= LARGEST_SAMPLE || p.epsilon <= LARGEST_SAMPLE) ==>
      (SelectAction(p, greedy, u).0 == a <==> Covers(Spans(p, greedy, a), u))
  {
    hide Mark, Propensity, Stretched;
    var spans, sample := Spans(p, greedy, a), Clamp(u, 0.0, LARGEST_SAMPLE);
    MarkBounds(p, a);
    assert spans[0] == Span(Mark(p, a), Mark(p, a + 1));
    assert |spans| == 2 ==> spans[1] == Span(p.epsilon, 1.0);
    if sample < p.epsilon {
      Exploring(p, sample, a);
    }
  }

  lemma MarkBounds(p: Policy, a: nat)
    requires Legal(p) && a < p.numActions
    ensures 0.0 == Mark(p, 0) && Mark(p, a) <= Mark(p, a + 1) <= p.epsilon
    ensures Mark(p, a + 1) - Mark(p, a) == p.epsilon / (p.numActions as real)
    ensures Mark(p, p.numActions) == p.epsilon
  {
    var k, e := p.numActions as real, p.epsilon;
    ShareBounds(e, k);
    var share := e / k;
    MarkIs(p, 0, share);
    MarkIs(p, a, share);
    MarkIs(p, a + 1, share);
    MarkIs(p, p.numActions, share);
    assert (a as real + 1.0) * share == a as real * share + share;
    NoNegative(k - (a as real + 1.0), share);
  }

  lemma MarkIs(p: Policy, a: nat, share: real)
    requires Legal(p) && share == p.epsilon / (p.numActions as real)
    ensures Mark(p, a) == a as real * share
  {
  }

  lemma NoNegative(x: real, y: real)
    requires x >= 0.0 && y >= 0.0
    ensures x * y >= 0.0
  {
  }

  lemma MarksRise(p: Policy, a: nat, b: nat)
    requires Legal(p) && a <= b <= p.numActions
    ensures Mark(p, a) <= Mark(p, b)
    decreases b - a
  {
    hide Mark;
    if a < b {
      MarkBounds(p, a);
      MarksRise(p, a + 1, b);
    }
  }

  /** Distinct actions' spans never meet. */
  lemma SpansApart(p: Policy, greedy: nat, x: real, a: nat, b: nat)
    requires Legal(p) && a < p.numActions && b < p.numActions
    requires Covers(Spans(p, greedy, a), x) && Covers(Spans(p, greedy, b), x)
    ensures a == b
  {
    hide Mark;
    MarkBounds(p, a);
    MarkBounds(p, b);
    if a < b { MarksRise(p, a + 1, b); }
    if b < a { MarksRise(p, b + 1, a); }
  }

  lemma LengthIs(p: Policy, greedy: nat, a: nat)
    requires Legal(p) && a < p.numActions
    ensures Length(Spans(p, greedy, a)) ==
      p.epsilon / (p.numActions as real) + (if a == Usual(p, greedy) then 1.0 - p.epsilon else 0.0)
  {
    MarkBounds(p, a);
    var spans := Spans(p, greedy, a);
    if |spans| == 2 {
      assert spans[..1] == [spans[0]];
    }
    assert Length([spans[0]]) == spans[0].to - spans[0].from;
  }

  lemma ChanceIs(p: Policy, greedy: nat, a: nat)
    requires Legal(p)
    ensures Chance(p, greedy, a) == Propensity(p, Usual(p, greedy), a)
  {
    hide Length, Spans;
    if a < p.numActions { LengthIs(p, greedy, a); }
  }

  /** The spans' total lengths add up to one.  The propensity that is reported is the spans' length - for every
      action - exactly when the greedy action is one of the policy's, or never taken. */
  lemma LengthIsPropensity(p: Policy, greedy: nat)
    requires Legal(p)
    ensures forall a :: 0 <= a < p.numActions ==> Length(Spans(p, greedy, a)) == Propensity(p, Usual(p, greedy), a)
    ensures Mass(p, Usual(p, greedy), p.numActions) == 1.0
    ensures (forall a :: 0 <= a < p.numActions ==> Length(Spans(p, greedy, a)) == Propensity(p, greedy, a)) <==>
            greedy < p.numActions || p.epsilon == 1.0
  {
    hide Length, Spans;
    IsDistribution(p, Usual(p, greedy));
    forall a | 0 <= a < p.numActions ensures Length(Spans(p, greedy, a)) == Propensity(p, Usual(p, greedy), a) {
      LengthIs(p, greedy, a);
    }
    if greedy >= p.numActions {
      assert Length(Spans(p, greedy, 0)) - Propensity(p, greedy, 0) == 1.0 - p.epsilon;
    }
  }

  /** What is logged beside an action is the total length of that action's spans - except that for a greedy action
      out of range action 0 is logged with too little, by the part of the samples that do not explore. */
  lemma LoggedIsLength(p: Policy, greedy: nat, u: real)
    requires Legal(p)
    ensures var (action, propensity) := SelectAction(p, greedy, u);
      && action < p.numActions
      && propensity == Length(Spans(p, greedy, action)) -
           (if greedy >= p.numActions && action == 0 then 1.0 - p.epsilon else 0.0)
  {
    hide Length, Spans, Stretched;
    LengthIs(p, greedy, SelectAction(p, greedy, u).0);
  }

  // ---- The evaluator ----------------------------------------------------------------------------

  datatype Logged = Logged(target: nat, logged: nat, propensity: real, reward: real)

  const FLOOR: real := 0.01

  predicate InUnit(x: real) {
    0.0 <= x <= 1.0
  }

  // What one logged event adds.
  function Term(e: Logged): real {
    if InUnit(e.propensity) && e.target == e.logged then e.reward / Max(e.propensity, FLOOR) else 0.0
  }

  function Ips(log: seq<Logged>): real {
    if log == [] then 0.0 else Ips(log[..|log| - 1]) + Term(log[|log| - 1])
  }

  function Discarded(log: seq<Logged>): nat {
    if log == [] then 0 else Discarded(log[..|log| - 1]) + (if InUnit(log[|log| - 1].propensity) then 0 else 1)
  }

  function EstimateOf(log: seq<Logged>): real {
    Ips(log) / (if log == [] then 1.0 else |log| as real)
  }

  class OffPolicyEvaluator {
    var cumulativeIps: real
    var samples: nat
    var discarded: nat
    ghost var log: seq<Logged>

    ghost predicate Valid()
      reads this
    {
      cumulativeIps == Ips(log) && samples == |log| && discarded == Discarded(log)
    }

    constructor ()
      ensures Valid() && log == []
    {
      cumulativeIps, samples, discarded, log := 0.0, 0, 0, [];
    }

    method Observe(target: nat, logged: nat, propensity: real, reward: real)
      requires Valid()
      modifies this
      ensures Valid() && log == old(log) + [Logged(target, logged, propensity, reward)]
      ensures samples == old(samples) + 1
      ensures 0.0 <= propensity <= 1.0 ==> discarded == old(discarded)
      ensures 0.0 <= propensity <= 1.0 && target != logged ==> cumulativeIps == old(cumulativeIps)
      ensures 0.0 <= propensity <= 1.0 && target == logged ==>
        (cumulativeIps - old(cumulativeIps)) * (if propensity < 0.01 then 0.01 else propensity) == reward
      ensures !(0.0 <= propensity <= 1.0) ==> discarded == old(discarded) + 1 && cumulativeIps == old(cumulativeIps)
    {
      ghost var was := log;
      log := log + [Logged(target, logged, propensity, reward)];
      assert log[..|log| - 1] == was;
      if !(0.0 <= propensity <= 1.0) {
        discarded := discarded + 1;
        samples := samples + 1;
        return;
      }
      if target == logged {
        var p := Max(propensity, 0.01);
        cumulativeIps := cumulativeIps + reward / p;
      }
      samples := samples + 1;
    }

    method Estimate() returns (v: real)
      requires Valid()
      ensures v == EstimateOf(log) && (samples > 0 ==> v * samples as real == cumulativeIps)
      ensures samples == 0 ==> v == 0.0
    {
      v := cumulativeIps / (if samples < 1 then 1.0 else samples as real);
    }
  }

  // ---- What the estimate is on average ----------------------------------------------------------

  // One decision to be logged: what the logging policy thinks best, and what the policy under evaluation would
  // do.
  datatype Context = Context(greedy: nat, target: nat)

  // What each action would earn, context by context.
  type Rewards = (nat, nat) -> real

  // The log when the actions `acts` were taken, each with the propensity that is reported.
  function LogOf(p: Policy, cs: seq<Context>, reward: Rewards, acts: seq<nat>): (log: seq<Logged>)
    requires Legal(p) && |acts| <= |cs|
    ensures |log| == |acts|
  {
    if acts == [] then []
    else
      var i := |acts| - 1;
      LogOf(p, cs, reward, acts[..i]) + [EventOf(p, cs[i], reward, i, acts[i])]
  }

  function EventOf(p: Policy, c: Context, reward: Rewards, i: nat, a: nat): Logged
    requires Legal(p)
  {
    Logged(c.target, a, Propensity(p, c.greedy, a), reward(i, a))
  }

  // ---- Logs as they come about ------------------------------------------------------------------

  predicate Samples(us: seq<real>) {
    forall i :: 0 <= i < |us| ==> 0.0 <= us[i] < 1.0
  }

  // The actions that the samples `us` pick, one per context.
  function Picks(p: Policy, cs: seq<Context>, us: seq<real>): (acts: seq<nat>)
    requires Legal(p) && Samples(us) && |us| <= |cs|
    ensures |acts| == |us|
  {
    if us == [] then []
    else
      var i := |us| - 1;
      Picks(p, cs, us[..i]) + [Select(p, cs[i].greedy, us[i]).0]
  }

  // The log they leave: each event holds the action and the propensity that one selection returned.
  function SampledLog(p: Policy, cs: seq<Context>, reward: Rewards, us: seq<real>): (log: seq<Logged>)
    requires Legal(p) && Samples(us) && |us| <= |cs|
    ensures |log| == |us|
  {
    if us == [] then []
    else
      var i := |us| - 1;
      var selected := Select(p, cs[i].greedy, us[i]);
      SampledLog(p, cs, reward, us[..i]) + [Logged(cs[i].target, selected.0, selected.1, reward(i, selected.0))]
  }

  // `f` gives, for the actions picked, the estimate from the log that is left.
  ghost predicate Yields(p: Policy, cs: seq<Context>, reward: Rewards, f: seq<nat> -> real)
    requires Legal(p)
  {
    forall us: seq<real> :: Samples(us) && |us| == |cs| ==>
      f(Picks(p, cs, us)) == EstimateOf(SampledLog(p, cs, reward, us))
  }

  lemma {:induction false} SampledLogIs(p: Policy, cs: seq<Context>, reward: Rewards, us: seq<real>)
    requires Legal(p) && Samples(us) && |us| <= |cs|
    ensures SampledLog(p, cs, reward, us) == LogOf(p, cs, reward, Picks(p, cs, us))
  {
    hide Propensity, Stretched;
    if us != [] {
      var i := |us| - 1;
      SampledLogIs(p, cs, reward, us[..i]);
      assert Picks(p, cs, us)[..i] == Picks(p, cs, us[..i]);
    }
  }

  // Actions that may be picked together.
  predicate Pickable(p: Policy, cs: seq<Context>, acts: seq<nat>)
    requires Legal(p) && |acts| <= |cs|
  {
    forall i :: 0 <= i < |acts| ==> Chance(p, cs[i].greedy, acts[i]) > 0.0
  }

  // A sample for an action that has one.
  lemma SampleFor(p: Policy, greedy: nat, a: nat)
    requires Legal(p) && Chance(p, greedy, a) > 0.0
    ensures 0.0 <= Mark(p, a) < 1.0 && Select(p, greedy, Mark(p, a)).0 == a
  {
    hide Mark, Stretched, Length, Spans;
    LengthIs(p, greedy, a);
    MarkBounds(p, a);
    MarksRise(p, 0, a);
    if p.epsilon > 0.0 {
      SharePositive(p.epsilon, p.numActions as real);
      Exploring(p, Mark(p, a), a);
    }
  }

  lemma {:induction false} SamplesFor(p: Policy, cs: seq<Context>, acts: seq<nat>) returns (us: seq<real>)
    requires Legal(p) && |acts| <= |cs| && Pickable(p, cs, acts)
    ensures Samples(us) && |us| == |acts| && Picks(p, cs, us) == acts
  {
    hide Mark, Select, Chance;
    if acts == [] {
      us := [];
    } else {
      var i := |acts| - 1;
      var before := SamplesFor(p, cs, acts[..i]);
      SampleFor(p, cs[i].greedy, acts[i]);
      us := before + [Mark(p, acts[i])];
      assert us[..i] == before;
    }
  }

  lemma YieldsEstimates(p: Policy, cs: seq<Context>, reward: Rewards)
    requires Legal(p)
    ensures Yields(p, cs, reward, Estimates(p, cs, reward))
  {
    forall us: seq<real> | Samples(us) && |us| == |cs|
      ensures Estimates(p, cs, reward)(Picks(p, cs, us)) == EstimateOf(SampledLog(p, cs, reward, us))
    {
      SampledLogIs(p, cs, reward, us);
    }
  }

  lemma YieldsOnPickable(p: Policy, cs: seq<Context>, reward: Rewards, f: seq<nat> -> real, acts: seq<nat>)
    requires Legal(p) && Yields(p, cs, reward, f) && |acts| == |cs| && Pickable(p, cs, acts)
    ensures f(acts) == Estimates(p, cs, reward)(acts)
  {
    hide Pickable;
    var us := SamplesFor(p, cs, acts);
    SampledLogIs(p, cs, reward, us);
  }

  // ---- Means ------------------------------------------------------------------------------------

  function Weighed(q: real, x: real): real {
    q * x
  }

  // The mean of `f` over all ways of continuing `acts` to one action per context, each weighed by its
  // probability.
  function Mean(p: Policy, cs: seq<Context>, acts: seq<nat>, f: seq<nat> -> real): real
    requires Legal(p) && |acts| <= |cs|
    decreases |cs| - |acts|, p.numActions + 1
  {
    if |acts| == |cs| then f(acts) else MeanNext(p, cs, acts, f, p.numActions)
  }

  // The part of it in which the next action is one of the first `n`.
  function MeanNext(p: Policy, cs: seq<Context>, acts: seq<nat>, f: seq<nat> -> real, n: nat): real
    requires Legal(p) && |acts| < |cs| && n <= p.numActions
    decreases |cs| - |acts|, n
  {
    if n == 0 then 0.0
    else
      var q := Chance(p, cs[|acts|].greedy, n - 1);
      MeanNext(p, cs, acts, f, n - 1) + Weighed(q, Mean(p, cs, acts + [n - 1], f))
  }

  // The part of its target's reward that a context contributes on average.
  function Weight(p: Policy, c: Context): real
    requires Legal(p)
  {
    Chance(p, c.greedy, c.target) / Max(Propensity(p, c.greedy, c.target), FLOOR)
  }

  function Contributions(p: Policy, cs: seq<Context>, reward: Rewards, from: nat): real
    requires Legal(p) && from <= |cs|
    decreases |cs| - from
  {
    if from == |cs| then 0.0
    else Weighed(Weight(p, cs[from]), reward(from, cs[from].target)) + Contributions(p, cs, reward, from + 1)
  }

  // The part of the average term of context `i` that comes from the first `n` actions.
  function MeanTerm(p: Policy, c: Context, reward: Rewards, i: nat, n: nat): real
    requires Legal(p)
  {
    if n == 0 then 0.0
    else
      MeanTerm(p, c, reward, i, n - 1) + Weighed(Chance(p, c.greedy, n - 1), Term(EventOf(p, c, reward, i, n - 1)))
  }

  lemma {:induction false} MeanTermIs(p: Policy, c: Context, reward: Rewards, i: nat, n: nat)
    requires Legal(p)
    ensures MeanTerm(p, c, reward, i, n) == if c.target < n then Weighed(Weight(p, c), reward(i, c.target)) else 0.0
  {
    hide Propensity, Chance, Term, Weight, Weighed;
    if n > 0 {
      MeanTermIs(p, c, reward, i, n - 1);
      TermTimes(p, c, reward, i, n - 1);
    }
  }

  lemma TermTimes(p: Policy, c: Context, reward: Rewards, i: nat, a: nat)
    requires Legal(p)
    ensures Weighed(Chance(p, c.greedy, a), Term(EventOf(p, c, reward, i, a))) ==
      if a == c.target then Weighed(Weight(p, c), reward(i, a)) else 0.0
  {
    hide Propensity, Chance, Max;
    IsDistribution(p, c.greedy);
    ChanceIs(p, c.greedy, a);
    var q, m := Chance(p, c.greedy, a), Max(Propensity(p, c.greedy, a), FLOOR);
    AboveFloor(Propensity(p, c.greedy, a));
    if a == c.target {
      Regrouped(q, m, reward(i, a));
    }
  }

  lemma AboveFloor(q: real)
    ensures Max(q, FLOOR) >= FLOOR
  {
  }

  lemma Regrouped(q: real, m: real, r: real)
    requires m > 0.0
    ensures q * (r / m) == q / m * r
  {
  }

  // The average of an IPS total, the first actions being given.
  lemma {:induction false} MeanOfTotal(p: Policy, cs: seq<Context>, reward: Rewards, acts: seq<nat>,
                                       f: seq<nat> -> real)
    requires Legal(p) && |acts| <= |cs|
    requires forall s: seq<nat> :: |s| == |cs| ==> f(s) == Ips(LogOf(p, cs, reward, s))
    ensures Mean(p, cs, acts, f) == Ips(LogOf(p, cs, reward, acts)) + Contributions(p, cs, reward, |acts|)
    decreases |cs| - |acts|, p.numActions + 1
  {
    hide Propensity, Chance, Usual, Term, Weight, Weighed;
    if |acts| < |cs| {
      var c := cs[|acts|];
      Spread(0.0, 0.0, Ips(LogOf(p, cs, reward, acts)) + Contributions(p, cs, reward, |acts| + 1), 0.0);
      MeanOfNext(p, cs, reward, acts, f, p.numActions);
      LengthIsPropensity(p, c.greedy);
      MeanTermIs(p, c, reward, |acts|, p.numActions);
      if c.target >= p.numActions { NothingBeyond(p, c, reward(|acts|, c.target)); }
    }
  }

  lemma NothingBeyond(p: Policy, c: Context, r: real)
    requires Legal(p) && c.target >= p.numActions
    ensures Weighed(Weight(p, c), r) == 0.0
  {
    hide Length, Spans;
  }

  lemma {:induction false} MeanOfNext(p: Policy, cs: seq<Context>, reward: Rewards, acts: seq<nat>,
                                      f: seq<nat> -> real, n: nat)
    requires Legal(p) && |acts| < |cs| && n <= p.numActions
    requires forall s: seq<nat> :: |s| == |cs| ==> f(s) == Ips(LogOf(p, cs, reward, s))
    ensures MeanNext(p, cs, acts, f, n) ==
      Weighed(Mass(p, Usual(p, cs[|acts|].greedy), n),
              Ips(LogOf(p, cs, reward, acts)) + Contributions(p, cs, reward, |acts| + 1)) +
      MeanTerm(p, cs[|acts|], reward, |acts|, n)
    decreases |cs| - |acts|, n
  {
    hide Propensity, Term, Weight, Weighed, Usual, Chance, LogOf, Ips, EventOf;
    var value := Ips(LogOf(p, cs, reward, acts)) + Contributions(p, cs, reward, |acts| + 1);
    Spread(0.0, 0.0, value, 0.0);
    if n > 0 {
      var c, a, next := cs[|acts|], n - 1, acts + [n - 1];
      MeanOfNext(p, cs, reward, acts, f, n - 1);
      MeanOfTotal(p, cs, reward, next, f);
      LogGrows(p, cs, reward, acts, a);
      ChanceIs(p, c.greedy, a);
      Spread(Mass(p, Usual(p, c.greedy), a), Chance(p, c.greedy, a), value,
        Term(EventOf(p, c, reward, |acts|, a)));
    }
  }

  // One action more adds its event's term.
  lemma LogGrows(p: Policy, cs: seq<Context>, reward: Rewards, acts: seq<nat>, a: nat)
    requires Legal(p) && |acts| < |cs|
    ensures Ips(LogOf(p, cs, reward, acts + [a])) ==
      Ips(LogOf(p, cs, reward, acts)) + Term(EventOf(p, cs[|acts|], reward, |acts|, a))
  {
    hide Propensity, Term;
    var next := acts + [a];
    var log, e := LogOf(p, cs, reward, next), EventOf(p, cs[|acts|], reward, |acts|, a);
    assert next[..|next| - 1] == acts;
    assert log == LogOf(p, cs, reward, acts) + [e];
    assert log[..|log| - 1] == LogOf(p, cs, reward, acts);
  }

  lemma Spread(m: real, q: real, v: real, t: real)
    ensures Weighed(m, v) + Weighed(q, v + t) == Weighed(m + q, v) + Weighed(q, t)
    ensures Weighed(0.0, v) == 0.0 && Weighed(1.0, v) == v
  {
  }

  lemma {:induction false} MeanScales(p: Policy, cs: seq<Context>, acts: seq<nat>, f: seq<nat> -> real,
                                      g: seq<nat> -> real, d: real)
    requires Legal(p) && |acts| <= |cs| && d > 0.0
    requires forall s: seq<nat> :: |s| == |cs| ==> g(s) == f(s) / d
    ensures Mean(p, cs, acts, g) == Mean(p, cs, acts, f) / d
    decreases |cs| - |acts|, p.numActions + 1
  {
    hide Propensity;
    if |acts| < |cs| {
      MeanNextScales(p, cs, acts, f, g, d, p.numActions);
    }
  }

  lemma {:induction false} MeanNextScales(p: Policy, cs: seq<Context>, acts: seq<nat>, f: seq<nat> -> real,
                                          g: seq<nat> -> real, d: real, n: nat)
    requires Legal(p) && |acts| < |cs| && n <= p.numActions && d > 0.0
    requires forall s: seq<nat> :: |s| == |cs| ==> g(s) == f(s) / d
    ensures MeanNext(p, cs, acts, g, n) == MeanNext(p, cs, acts, f, n) / d
    decreases |cs| - |acts|, n
  {
    hide Propensity, Chance, Weighed;
    if n > 0 {
      MeanNextScales(p, cs, acts, f, g, d, n - 1);
      MeanScales(p, cs, acts + [n - 1], f, g, d);
      Shared(MeanNext(p, cs, acts, f, n - 1), Chance(p, cs[|acts|].greedy, n - 1), Mean(p, cs, acts + [n - 1], f), d);
    }
  }

  lemma Shared(a: real, q: real, m: real, d: real)
    requires d > 0.0
    ensures a / d + Weighed(q, m / d) == (a + Weighed(q, m)) / d
  {
  }

  lemma {:induction false} MeanAgrees(p: Policy, cs: seq<Context>, acts: seq<nat>, f: seq<nat> -> real,
                                      g: seq<nat> -> real)
    requires Legal(p) && |acts| <= |cs| && Pickable(p, cs, acts)
    requires forall s: seq<nat> :: |s| == |cs| && Pickable(p, cs, s) ==> f(s) == g(s)
    ensures Mean(p, cs, acts, f) == Mean(p, cs, acts, g)
    decreases |cs| - |acts|, p.numActions + 1
  {
    hide Chance, Pickable;
    if |acts| < |cs| {
      MeanNextAgrees(p, cs, acts, f, g, p.numActions);
    }
  }

  lemma {:induction false} MeanNextAgrees(p: Policy, cs: seq<Context>, acts: seq<nat>, f: seq<nat> -> real,
                                          g: seq<nat> -> real, n: nat)
    requires Legal(p) && |acts| < |cs| && n <= p.numActions && Pickable(p, cs, acts)
    requires forall s: seq<nat> :: |s| == |cs| && Pickable(p, cs, s) ==> f(s) == g(s)
    ensures MeanNext(p, cs, acts, f, n) == MeanNext(p, cs, acts, g, n)
    decreases |cs| - |acts|, n
  {
    hide Chance, Weighed;
    if n > 0 {
      MeanNextAgrees(p, cs, acts, f, g, n - 1);
      var q := Chance(p, cs[|acts|].greedy, n - 1);
      ChanceNotNegative(p, cs[|acts|].greedy, n - 1);
      if q == 0.0 {
        Spread(0.0, 0.0, Mean(p, cs, acts + [n - 1], f), 0.0);
        Spread(0.0, 0.0, Mean(p, cs, acts + [n - 1], g), 0.0);
      } else {
        MeanAgrees(p, cs, acts + [n - 1], f, g);
      }
    }
  }

  lemma ChanceNotNegative(p: Policy, greedy: nat, a: nat)
    requires Legal(p)
    ensures Chance(p, greedy, a) >= 0.0
  {
    hide Chance;
    ChanceIs(p, greedy, a);
    IsDistribution(p, Usual(p, greedy));
  }

  function Estimates(p: Policy, cs: seq<Context>, reward: Rewards): seq<nat> -> real
    requires Legal(p)
  {
    acts => if |acts| == |cs| then EstimateOf(LogOf(p, cs, reward, acts)) else 0.0
  }

  // What the policy under evaluation would earn.
  function TargetRewards(cs: seq<Context>, reward: Rewards, from: nat): real
    requires from <= |cs|
    decreases |cs| - from
  {
    if from == |cs| then 0.0 else reward(from, cs[from].target) + TargetRewards(cs, reward, from + 1)
  }

  /** Over all logs the logging policy may leave - each event an action and the propensity its selection returned,
      each action as probable as its samples are many - the evaluator's estimate is on average the mean of the
      contexts' weighed target rewards. */
  lemma MeanEstimate(p: Policy, cs: seq<Context>, reward: Rewards, f: seq<nat> -> real)
    requires Legal(p) && cs != [] && Yields(p, cs, reward, f)
    ensures Mean(p, cs, [], f) == Contributions(p, cs, reward, 0) / (|cs| as real)
  {
    hide Weight, Weighed, Yields;
    forall s: seq<nat> | |s| == |cs| && Pickable(p, cs, s) ensures f(s) == Estimates(p, cs, reward)(s) {
      YieldsOnPickable(p, cs, reward, f, s);
    }
    MeanAgrees(p, cs, [], f, Estimates(p, cs, reward));
    var total: seq<nat> -> real := acts => if |acts| == |cs| then Ips(LogOf(p, cs, reward, acts)) else 0.0;
    MeanOfTotal(p, cs, reward, [], total);
    assert LogOf(p, cs, reward, []) == [];
    MeanScales(p, cs, [], total, Estimates(p, cs, reward), |cs| as real);
  }

  predicate FullWeight(p: Policy, cs: seq<Context>)
    requires Legal(p)
  {
    forall i :: 0 <= i < |cs| ==> Weight(p, cs[i]) == 1.0
  }

  ghost predicate Unbiased(p: Policy, cs: seq<Context>)
    requires Legal(p) && cs != []
  {
    forall reward: Rewards, f: seq<nat> -> real :: Yields(p, cs, reward, f) ==>
      Mean(p, cs, [], f) == TargetRewards(cs, reward, 0) / (|cs| as real)
  }

  lemma {:induction false} FullContributions(p: Policy, cs: seq<Context>, reward: Rewards, from: nat)
    requires Legal(p) && from <= |cs| && FullWeight(p, cs)
    ensures Contributions(p, cs, reward, from) == TargetRewards(cs, reward, from)
    decreases |cs| - from
  {
    hide Weight;
    if from < |cs| {
      FullContributions(p, cs, reward, from + 1);
    }
  }

  // A reward in one context alone.
  function Only(k: nat): Rewards {
    (i: nat, a: nat) => if i == k then 1.0 else 0.0
  }

  lemma {:induction false} OnlyOne(p: Policy, cs: seq<Context>, k: nat, from: nat)
    requires Legal(p) && k < |cs| && from <= |cs|
    ensures Contributions(p, cs, Only(k), from) == if from <= k then Weight(p, cs[k]) else 0.0
    ensures TargetRewards(cs, Only(k), from) == if from <= k then 1.0 else 0.0
    decreases |cs| - from
  {
    hide Weight, Weighed;
    if from < |cs| {
      OnlyOne(p, cs, k, from + 1);
      Neutral(Weight(p, cs[from]));
    }
  }

  lemma Neutral(q: real)
    ensures Weighed(q, 0.0) == 0.0 && Weighed(q, 1.0) == q
  {
  }

  // A context's weight is one just when its target is not reported below the floor - if what is reported is true.
  lemma WeightIsOne(p: Policy, c: Context)
    requires Legal(p)
    ensures Chance(p, c.greedy, c.target) == Propensity(p, c.greedy, c.target) ==>
      (Weight(p, c) == 1.0 <==> Propensity(p, c.greedy, c.target) >= FLOOR)
    ensures Weight(p, c) == 1.0 <==> Chance(p, c.greedy, c.target) == Max(Propensity(p, c.greedy, c.target), FLOOR)
  {
    hide Propensity, Chance;
    AsOne(Chance(p, c.greedy, c.target), Max(Propensity(p, c.greedy, c.target), FLOOR));
  }

  lemma AsOne(x: real, y: real)
    requires y > 0.0
    ensures x / y == 1.0 <==> x == y
  {
  }

  /** The estimate is unbiased, whatever the rewards, if and only if every context has full weight: its target's
      probability is the propensity it is divided by.  With all greedy actions in range, that is to say that
      the samples of no target cover less of the unit interval than the floor. */
  lemma UnbiasedExactly(p: Policy, cs: seq<Context>)
    requires Legal(p) && cs != []
    ensures Unbiased(p, cs) <==> FullWeight(p, cs)
    ensures (forall i :: 0 <= i < |cs| ==> cs[i].greedy < p.numActions) ==>
      (Unbiased(p, cs) <==> forall i :: 0 <= i < |cs| ==> Chance(p, cs[i].greedy, cs[i].target) >= 0.01)
  {
    hide Propensity, Weight, Mean, Estimates, Yields, Chance;
    if FullWeight(p, cs) {
      forall reward: Rewards, f: seq<nat> -> real | Yields(p, cs, reward, f)
        ensures Mean(p, cs, [], f) == TargetRewards(cs, reward, 0) / (|cs| as real)
      {
        MeanEstimate(p, cs, reward, f);
        FullContributions(p, cs, reward, 0);
      }
    }
    if Unbiased(p, cs) {
      forall k | 0 <= k < |cs| ensures Weight(p, cs[k]) == 1.0 {
        YieldsEstimates(p, cs, Only(k));
        MeanEstimate(p, cs, Only(k), Estimates(p, cs, Only(k)));
        OnlyOne(p, cs, k, 0);
        SameQuotient(Weight(p, cs[k]), 1.0, |cs| as real);
      }
    }
    forall i | 0 <= i < |cs| && cs[i].greedy < p.numActions
      ensures Weight(p, cs[i]) == 1.0 <==> Chance(p, cs[i].greedy, cs[i].target) >= FLOOR
    {
      ChanceIs(p, cs[i].greedy, cs[i].target);
      WeightIsOne(p, cs[i]);
    }
  }

  lemma SameQuotient(x: real, y: real, d: real)
    requires d > 0.0 && x / d == y / d
    ensures x == y
  {
  }
}
