/** The three online least-squares learners of `contextra-adapt`, in three different forms, are one learner:
    after the same history they hold the same inverse and give the same estimate. */
module Agreement {
  import opened LinearAlgebra
  import opened ShermanMorrison
  import opened RowMajor
  import Bandit
  import DriftRegression
  import FlowThompson
  import RieGreedy

  // What RIE-Greedy's `mu_hat` multiplies out.
  ghost function MuHat(rie: RieGreedy.RieGreedyProfile): Vector
    requires rie.Valid()
    reads rie, rie.precisionInv, rie.infoVector
  {
    Apply(Rows(rie.precisionInv[..], rie.dim), rie.infoVector[..])
  }

  /** LinUCB's gain form and RIE-Greedy's information form agree whenever their discounts and adjusted
      rewards did and the ridge is one. */
  lemma BanditIsRieGreedy(bandit: Bandit.BanditProfileState, rie: RieGreedy.RieGreedyProfile)
    requires bandit.Valid() && !bandit.Fresh() && bandit.start == Zeros(bandit.theta.Length)
    requires rie.Valid() && rie.lambda == 1.0 && rie.dim == bandit.theta.Length
    requires bandit.events == rie.events
    ensures bandit.theta[..] == MuHat(rie)
    ensures Rows(bandit.invA[..], rie.dim) == Rows(rie.precisionInv[..], rie.dim)
  {
    hide Rows, Apply, Fits, RieGreedy.Informs;
    var inv, info := Rows(rie.precisionInv[..], rie.dim), rie.infoVector[..];
    RieGreedy.InformsFits(rie.events, inv, info, rie.dim, 1.0);
    FitUnique(rie.events, Zeros(rie.dim), rie.dim, 1.0,
              Rows(bandit.invA[..], rie.dim), bandit.theta[..], inv, Apply(inv, info));
  }

  /** FC-TS and RIE-Greedy agree whenever their events did: a discount of one, a confidence weight equal to
      the noise variance, and rewards that the drift does not move. */
  lemma FlowIsRieGreedy(flow: FlowThompson.FlowCorrectedThompsonBandit, rie: RieGreedy.RieGreedyProfile)
    requires flow.Valid() && rie.Valid()
    requires rie.dim == flow.config.dim && rie.lambda == flow.config.lambda && flow.events == rie.events
    ensures flow.mu[..] == MuHat(rie)
    ensures Rows(flow.invA[..], rie.dim) == Rows(rie.precisionInv[..], rie.dim)
  {
    hide Rows, Apply, Fits, RieGreedy.Informs, FlowThompson.RingHolds;
    var inv, info := Rows(rie.precisionInv[..], rie.dim), rie.infoVector[..];
    var inv', info' := Rows(flow.invA[..], rie.dim), flow.eta[..];
    RieGreedy.InformsFits(rie.events, inv, info, rie.dim, rie.lambda);
    RieGreedy.InformsFits(flow.events, inv', info', rie.dim, rie.lambda);
    FitUnique(rie.events, Zeros(rie.dim), rie.dim, rie.lambda, inv, Apply(inv, info), inv', Apply(inv', info'));
  }

  /** The event of an FC-TS observation is RIE-Greedy's when the weight is the noise variance and there is
      no drift. */
  lemma SameEvent(weight: real, noiseVar: real, x: Vector, reward: real, dt: real, driftRate: Vector)
    requires noiseVar > 0.0 && weight == noiseVar && driftRate == Zeros(|x|)
    ensures Event(1.0, weight / noiseVar, x, FlowThompson.Carried(reward, dt, Dot(driftRate, x))) ==
            Event(1.0, 1.0, x, reward)
  {
    DotToZeros(x, |x|);
    DotSymmetric(driftRate, x);
    assert Dot(driftRate, x) == 0.0;
  }

  // ---- The same observations, fed to two learners -----------------------------------------------

  // One observation: the context, the reward that counts, and when it was made.
  datatype Observed = Observed(x: Vector, reward: real, time: nat)

  // The history of a learner that has taken in the first `n` observations with discount `gamma`.
  function History(observed: seq<Observed>, gamma: real, n: nat): seq<Event>
    requires n <= |observed|
  {
    if n == 0 then []
    else History(observed, gamma, n - 1) + [Event(gamma, 1.0, observed[n - 1].x, observed[n - 1].reward)]
  }

  // What LinUCB is told: an outcome, what it cost, and whether it left the device.
  datatype Feedback = Feedback(outcome: real, cost: real, cloud: bool)

  function Net(f: Feedback, price: real, mu: real): real {
    f.outcome - price * f.cost - (if f.cloud then mu else 0.0)
  }

  lemma NetIsAdjusted(f: Feedback, price: real, mu: real)
    ensures Bandit.Adjusted(f.outcome, f.cost, f.cloud, price, mu) == Net(f, price, mu)
  {
  }

  method FeedRie(d: nat, ridge: real, gamma: real, observed: seq<Observed>) returns (rie: RieGreedy.RieGreedyProfile)
    requires d > 0 && ridge > 0.0 && 0.0001 <= gamma <= 1.0
    requires forall i :: 0 <= i < |observed| ==> |observed[i].x| == d
    ensures fresh(rie) && fresh(rie.precisionInv) && fresh(rie.infoVector)
    ensures rie.Valid() && rie.dim == d && rie.lambda == ridge
    ensures rie.events == History(observed, gamma, |observed|)
  {
    hide Rows, RieGreedy.Informs, Diagonal;
    rie := new RieGreedy.RieGreedyProfile(d, ridge, gamma, true, true);
    var i := 0;
    while i < |observed|
      invariant 0 <= i <= |observed|
      invariant fresh(rie) && fresh(rie.precisionInv) && fresh(rie.infoVector)
      invariant rie.Valid() && rie.dim == d && rie.lambda == ridge && rie.gamma == gamma
      invariant rie.events == History(observed, gamma, i)
    {
      var _ := rie.Update(observed[i].x, observed[i].reward, true, true, true);
      i := i + 1;
    }
  }

  method FeedBandit(d: nat, alphaBase: real, gamma: real, price: real, mu: real, feedback: seq<Feedback>,
                    observed: seq<Observed>) returns (bandit: Bandit.BanditProfileState)
    requires d > 0 && 0.0001 <= gamma <= 1.0 && |feedback| == |observed| <= Bandit.REFACTORIZATION_INTERVAL
    requires forall i :: 0 <= i < |observed| ==>
      |observed[i].x| == d && observed[i].reward == Net(feedback[i], price, mu)
    ensures bandit.Valid() && !bandit.Fresh() && bandit.theta.Length == d && bandit.start == Zeros(d)
    ensures bandit.events == History(observed, gamma, |observed|)
  {
    hide Rows, Fits, Diagonal, Zeros, Bandit.SpreadAll, Net, Bandit.Adjusted;
    bandit := new Bandit.BanditProfileState(d, alphaBase);
    bandit.gamma, bandit.lambda, bandit.mu := gamma, price, mu;
    var i := 0;
    while i < |feedback|
      invariant 0 <= i <= |feedback|
      invariant fresh(bandit) && fresh(bandit.theta)
      invariant fresh(bandit.sigmaSq) && fresh(bandit.invA) && fresh(bandit.workBuf)
      invariant bandit.Valid() && !bandit.Fresh() && bandit.theta.Length == d && bandit.start == Zeros(d)
      invariant bandit.gamma == gamma && bandit.lambda == price && bandit.mu == mu
      invariant bandit.updatesSinceReset == i && bandit.driftStepsRemaining == 0
      invariant bandit.events == History(observed, gamma, i)
    {
      var f := feedback[i];
      NetIsAdjusted(f, price, mu);
      assert bandit.EventOf(observed[i].x, f.outcome, f.cost, f.cloud) == Event(gamma, 1.0, observed[i].x,
        observed[i].reward);
      var _ := bandit.Update(observed[i].x, f.outcome, f.cost, f.cloud);
      i := i + 1;
    }
  }

  method FeedFlow(config: FlowThompson.Config, observed: seq<Observed>)
    returns (flow: FlowThompson.FlowCorrectedThompsonBandit)
    requires FlowThompson.Accepts(config) && forall i :: 0 <= i < |observed| ==> |observed[i].x| == config.dim
    ensures flow.Valid() && flow.config == config && flow.events == History(observed, 1.0, |observed|)
  {
    hide Rows, RieGreedy.Informs, FlowThompson.RingHolds, Zeros, Apply, FlowThompson.Carried, Dot;
    flow := new FlowThompson.FlowCorrectedThompsonBandit(config);
    var i := 0;
    while i < |observed|
      invariant 0 <= i <= |observed|
      invariant fresh(flow) && fresh(flow.invA) && fresh(flow.eta) && fresh(flow.mu) && fresh(flow.scratch)
      invariant fresh(flow.ctx) && fresh(flow.rewards) && fresh(flow.times)
      invariant flow.Valid() && flow.config == config && flow.driftRate == Zeros(config.dim)
      invariant flow.events == History(observed, 1.0, i)
    {
      var o := observed[i];
      SameEvent(config.noiseVar, config.noiseVar, o.x, o.reward,
                DriftRegression.Saturated(flow.timeStep, o.time) as real, flow.driftRate);
      var _ := flow.UpdateWithFlow(o.x, o.reward, o.time, config.noiseVar, true, true);
      i := i + 1;
    }
  }

  /** A fresh LinUCB and a fresh RIE-Greedy with the same discount and ridge one, the adjusted rewards of the one
      being the rewards of the other, hold the same inverse and the same estimate after any number of
      observations up to the thousand LinUCB accepts. */
  method BanditBesideRie(d: nat, alphaBase: real, gamma: real, price: real, mu: real, feedback: seq<Feedback>,
                         observed: seq<Observed>)
    returns (bandit: Bandit.BanditProfileState, rie: RieGreedy.RieGreedyProfile)
    requires d > 0 && 0.0001 <= gamma <= 1.0 && |feedback| == |observed| <= Bandit.REFACTORIZATION_INTERVAL
    requires forall i :: 0 <= i < |observed| ==>
      |observed[i].x| == d && observed[i].reward == Net(feedback[i], price, mu)
    ensures bandit.Valid() && rie.Valid() && bandit.theta.Length == rie.dim == d && !bandit.Fresh()
    ensures bandit.events == rie.events == History(observed, gamma, |observed|)
    ensures bandit.theta[..] == MuHat(rie)
    ensures Rows(bandit.invA[..], d) == Rows(rie.precisionInv[..], d)
  {
    hide Rows, Fits, RieGreedy.Informs, Zeros, History;
    bandit := FeedBandit(d, alphaBase, gamma, price, mu, feedback, observed);
    rie := FeedRie(d, 1.0, gamma, observed);
    BanditIsRieGreedy(bandit, rie);
  }

  /** A fresh FC-TS and a fresh RIE-Greedy with discount one and the same ridge - confidence weight equal to the
      noise variance, no drift rate computed yet - hold the same inverse and the same estimate after any
      observations. */
  method FlowBesideRie(config: FlowThompson.Config, observed: seq<Observed>)
    returns (flow: FlowThompson.FlowCorrectedThompsonBandit, rie: RieGreedy.RieGreedyProfile)
    requires FlowThompson.Accepts(config) && forall i :: 0 <= i < |observed| ==> |observed[i].x| == config.dim
    ensures flow.Valid() && rie.Valid() && flow.config == config && rie.dim == config.dim
    ensures flow.events == rie.events == History(observed, 1.0, |observed|)
    ensures flow.mu[..] == MuHat(rie)
    ensures Rows(flow.invA[..], config.dim) == Rows(rie.precisionInv[..], config.dim)
  {
    hide Rows, RieGreedy.Informs, FlowThompson.RingHolds, Apply, History;
    flow := FeedFlow(config, observed);
    rie := FeedRie(config.dim, config.lambda, 1.0, observed);
    FlowIsRieGreedy(flow, rie);
  }
}
