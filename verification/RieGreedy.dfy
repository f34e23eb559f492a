/** `RieGreedyProfile` of `crates/contextra-adapt/src/rie_greedy.rs`: the same regression in information
    form, which keeps the inverse and the target vector and multiplies them when asked for the estimate.
    Whether a machine number is finite is a fact the caller supplies. */
module RieGreedy {
  import opened Basics
  import opened LinearAlgebra
  import opened ShermanMorrison
  import opened RowMajor

  datatype Error = DimensionMismatch(expected: nat, actual: nat) | NonFinite

  // The state is the one `events` lead to, in information form.
  ghost predicate Informs(events: seq<Event>, inv: Matrix, info: Vector, d: nat, ridge: real) {
    && GoodEvents(events, d)
    && Tracks(Gram(events, d, ridge), inv, d)
    && info == Targets(events, Zeros(d))
  }

  lemma InformsAtStart(d: nat, ridge: real)
    requires ridge > 0.0
    ensures Informs([], Diagonal(d, 1.0 / ridge), Zeros(d), d, ridge)
  {
    hide Tracks;
    Start(d, ridge);
  }

  /** One accepted observation, on values. */
  lemma InformsNext(events: seq<Event>, inv: Matrix, info: Vector, d: nat, ridge: real, e: Event)
    requires Informs(events, inv, info, d, ridge) && GoodEvent(e, d)
    ensures Square(inv, d) && Denominator(inv, e) >= 1.0
    ensures |info| == d && Informs(events + [e], Updated(inv, e), Lin(e.decay, info, Pull(e), e.x), d, ridge)
  {
    hide Apply, RankOne, Lin, Inverse, Symmetric, PositiveDefinite, Gram, Targets, Updated, Denominator, Direction, Dot;
    var a := Gram(events, d, ridge);
    GramNext(events, e, Zeros(d), d, ridge);
    UpdatedTracks(a, inv, e, d);
  }

  /** The estimate the information form stands for is the one the gain form keeps. */
  lemma InformsFits(events: seq<Event>, inv: Matrix, info: Vector, d: nat, ridge: real)
    requires Informs(events, inv, info, d, ridge)
    ensures Square(inv, d) && |info| == d
    ensures Fits(events, Zeros(d), inv, Apply(inv, info), d, ridge)
  {
    hide Gram, Targets, Symmetric, PositiveDefinite;
  }

  // Discounting first and then subtracting v v^T / denom is the rank-one update.
  lemma DiscountedUpdate(m: seq<real>, m1: seq<real>, d: nat, e: Event, den: real, v: Vector)
    requires |m| == d * d && |e.x| == d && e.decay > 0.0 && e.weight == 1.0
    requires ScaledAll(m, m1, 1.0 / e.decay)
    requires v == Apply(Rows(m1, d), e.x) && den == 1.0 + Dot(e.x, v) && den > 0.0
    ensures Denominator(Rows(m, d), e) == den
    ensures RankOne(1.0, Rows(m1, d), -(1.0 / den), v) == Updated(Rows(m, d), e)
  {
    ScaledIsLin(m, m1, d, 1.0 / e.decay);
    ScaledRows(Rows(m, d), Rows(m1, d), d, e, den, v);
  }

  lemma ScaledIsLin(m: seq<real>, m1: seq<real>, d: nat, g: real)
    requires |m| == d * d && ScaledAll(m, m1, g)
    ensures forall i :: 0 <= i < d ==> Rows(m1, d)[i] == Lin(g, Rows(m, d)[i], 0.0, Rows(m, d)[i])
  {
    var inv := Rows(m, d);
    forall i | 0 <= i < d ensures Rows(m1, d)[i] == Lin(g, inv[i], 0.0, inv[i]) {
      RowBounds(d, i);
      forall j | 0 <= j < d ensures Rows(m1, d)[i][j] == Lin(g, inv[i], 0.0, inv[i])[j] {
        assert inv[i][j] == m[i * d + j] && Rows(m1, d)[i][j] == m1[i * d + j];
      }
    }
  }

  lemma DenominatorAgrees(m: seq<real>, m1: seq<real>, d: nat, e: Event, den: real, v: Vector)
    requires |m| == d * d && |e.x| == d && e.decay > 0.0 && e.weight == 1.0
    requires ScaledAll(m, m1, 1.0 / e.decay)
    requires v == Apply(Rows(m1, d), e.x) && den == 1.0 + Dot(e.x, v) && Denominator(Rows(m, d), e) >= 1.0
    ensures den == Denominator(Rows(m, d), e)
  {
    hide Denominator, Rows;
    var inv, g := Rows(m, d), 1.0 / e.decay;
    ScaledIsLin(m, m1, d, g);
    ScaledImage(inv, Rows(m1, d), d, e, v);
    PlainDenominator(inv, e, v);
  }

  lemma ScaledImage(inv: Matrix, inv1: Matrix, d: nat, e: Event, v: Vector)
    requires Square(inv, d) && Square(inv1, d) && |e.x| == d && e.decay > 0.0
    requires forall i :: 0 <= i < d ==> inv1[i] == Lin(1.0 / e.decay, inv[i], 0.0, inv[i])
    requires v == Apply(inv1, e.x)
    ensures v == Direction(inv, e.decay, e.x)
  {
    forall i | 0 <= i < d ensures v[i] == Direction(inv, e.decay, e.x)[i] {
      LinDot(1.0 / e.decay, inv[i], 0.0, inv[i], e.x);
    }
  }

  lemma PlainDenominator(inv: Matrix, e: Event, v: Vector)
    requires e.decay > 0.0 && Square(inv, |e.x|) && e.weight == 1.0 && v == Direction(inv, e.decay, e.x)
    ensures Denominator(inv, e) == 1.0 + Dot(e.x, v)
  {
    hide Dot, Direction;
  }

  lemma DiscountedTargets(info: Vector, info1: Vector, e: Event)
    requires |info| == |e.x| && ScaledAll(info, info1, e.decay) && e.weight == 1.0
    ensures Lin(1.0, info1, e.target, e.x) == Lin(e.decay, info, Pull(e), e.x)
  {
    forall i | 0 <= i < |info|
      ensures Lin(1.0, info1, e.target, e.x)[i] == Lin(e.decay, info, Pull(e), e.x)[i]
    {
      OneTarget(info[i], info1[i], e.decay, e.weight, e.target, Pull(e), e.x[i]);
    }
  }

  lemma OneTarget(old': real, new': real, decay: real, weight: real, target: real, pull: real, x: real)
    requires new' == old' * decay && weight == 1.0 && pull == weight * target
    ensures 1.0 * new' + target * x == decay * old' + pull * x
  {
  }

  method Copy(a: array<real>) returns (b: array<real>)
    ensures fresh(b) && b[..] == a[..]
  {
    b := new real[a.Length](i requires 0 <= i < a.Length reads a => a[i]);
  }

  lemma ScaledRows(inv: Matrix, inv1: Matrix, d: nat, e: Event, den: real, v: Vector)
    requires Square(inv, d) && Square(inv1, d) && |e.x| == d && e.decay > 0.0 && e.weight == 1.0
    requires forall i :: 0 <= i < d ==> inv1[i] == Lin(1.0 / e.decay, inv[i], 0.0, inv[i])
    requires v == Apply(inv1, e.x) && den == 1.0 + Dot(e.x, v) && den > 0.0
    ensures Denominator(inv, e) == den
    ensures RankOne(1.0, inv1, -(1.0 / den), v) == Updated(inv, e)
  {
    var g := 1.0 / e.decay;
    ScaledImage(inv, inv1, d, e, v);
    PlainDenominator(inv, e, v);
    var t := -(1.0 / den);
    forall i | 0 <= i < d ensures RankOne(1.0, inv1, t, v)[i] == RankOne(g, inv, t, v)[i] {
      assert RankOneRow(1.0, inv1, t, v, i) == RankOneRow(g, inv, t, v, i);
    }
  }

  class RieGreedyProfile {
    var precisionInv: array<real>
    var infoVector: array<real>
    var dim: nat
    var lambda: real
    var gamma: real
    ghost var events: seq<Event>

    ghost predicate Valid()
      reads this, precisionInv, infoVector
    {
      && dim > 0 && lambda > 0.0 && 0.0001 <= gamma <= 1.0
      && precisionInv.Length == dim * dim && infoVector.Length == dim && precisionInv != infoVector
      && Informs(events, Rows(precisionInv[..], dim), infoVector[..], dim, lambda)
    }

    /** `new`; the two flags say whether the ridge and `gamma` are finite. */
    constructor (dim: nat, ridge: real, gamma: real, ridgeFinite: bool, gammaFinite: bool)
      ensures Valid() && events == []
      ensures this.dim == (if dim < 1 then 1 else dim)
      ensures this.lambda == (if ridgeFinite && ridge > 0.0 then ridge else 1.0)
      ensures this.gamma == if gammaFinite then Clamp(gamma, 0.0001, 1.0) else 1.0
      ensures Rows(precisionInv[..], this.dim) == Diagonal(this.dim, 1.0 / this.lambda)
      ensures fresh(precisionInv) && fresh(infoVector)
    {
      var d := if dim < 1 then 1 else dim;
      var l := if ridgeFinite && ridge > 0.0 then ridge else 1.0;
      this.dim := d;
      this.lambda := l;
      this.gamma := if gammaFinite then Clamp(gamma, 0.0001, 1.0) else 1.0;
      var m := new real[d * d](k => 0.0);
      precisionInv := m;
      infoVector := new real[d](i => 0.0);
      events := [];
      new;
      hide Informs, Rows, Diagonal;
      FillDiagonal(precisionInv, d, 1.0 / l);
      assert infoVector[..] == Zeros(d);
      InformsAtStart(d, l);
    }

    /** `mu_hat` */
    method MuHat(resultFinite: bool) returns (res: Result<seq<real>, Error>)
      requires Valid()
      ensures !resultFinite ==> res == Err(NonFinite)
      ensures resultFinite ==> res.Ok? && Fits(events, Zeros(dim), Rows(precisionInv[..], dim), res.value, dim, lambda)
    {
      hide Informs, Rows, Fits;
      var mu := new real[dim](i => 0.0);
      var _ := Image(precisionInv, infoVector[..], mu);
      InformsFits(events, Rows(precisionInv[..], dim), infoVector[..], dim, lambda);
      res := if resultFinite then Ok(mu[..]) else Err(NonFinite);
    }

    /** `update`; the flags say whether the input, the denominator and the result are finite. */
    method Update(x: seq<real>, reward: real, inputFinite: bool, denomFinite: bool, resultFinite: bool)
      returns (res: Result<(), Error>)
      requires Valid()
      modifies this`precisionInv, this`infoVector, this`events, precisionInv, infoVector
      ensures Valid() && (precisionInv == old(precisionInv) || fresh(precisionInv))
      ensures infoVector == old(infoVector) || fresh(infoVector)
      ensures res.Ok? <==> |x| == dim && inputFinite && denomFinite && resultFinite
      ensures !res.Ok? ==> res.error == (if |x| != dim then DimensionMismatch(dim, |x|) else NonFinite)
      ensures res.Ok? ==> events == old(events) + [Event(gamma, 1.0, x, reward)]
      ensures !res.Ok? ==>
        events == old(events) && precisionInv[..] == old(precisionInv[..]) && infoVector[..] == old(infoVector[..])
    {
      hide Informs, Rows, Denominator, Updated, Lin, Pull, Square;
      if |x| != dim {
        return Err(DimensionMismatch(dim, |x|));
      }
      if !inputFinite {
        return Err(NonFinite);
      }
      var backupInv := Copy(precisionInv);
      var backupInfo := Copy(infoVector);
      ghost var e := Event(gamma, 1.0, x, reward);
      InformsNext(events, Rows(precisionInv[..], dim), infoVector[..], dim, lambda, e);
      var valid := Rewrite(precisionInv, infoVector, gamma, x, reward, denomFinite, resultFinite);
      if !valid {
        precisionInv, infoVector := backupInv, backupInfo;
        return Err(NonFinite);
      }
      events := events + [e];
      res := Ok(());
    }
  }

  /** Steps 1 and 2 of `update`, in place; false where the original restores its backup. */
  method Rewrite(precisionInv: array<real>, infoVector: array<real>, gamma: real, x: seq<real>, reward: real,
                 denomFinite: bool, resultFinite: bool) returns (valid: bool)
    requires precisionInv.Length == |x| * |x| && infoVector.Length == |x| && precisionInv != infoVector && gamma > 0.0
    requires Denominator(Rows(precisionInv[..], |x|), Event(gamma, 1.0, x, reward)) >= 1.0
    modifies precisionInv, infoVector
    ensures valid <==> denomFinite && resultFinite
    ensures var e := Event(gamma, 1.0, x, reward);
      valid ==>
        && Rows(precisionInv[..], |x|) == Updated(Rows(old(precisionInv[..]), |x|), e)
        && infoVector[..] == Lin(gamma, old(infoVector[..]), Pull(e), x)
  {
    hide Rows, Denominator, Updated, Dot, Lin, ScaledAll, Apply, RankOne, Pull;
    var d := |x|;
    ghost var m, info, e := precisionInv[..], infoVector[..], Event(gamma, 1.0, x, reward);
    Scale(precisionInv, 1.0 / gamma);
    ghost var m1 := precisionInv[..];
    Scale(infoVector, gamma);
    ghost var info1 := infoVector[..];
    var v := new real[d];
    var xtv := Image(precisionInv, x, v);
    var denom := 1.0 + xtv;
    DenominatorAgrees(m, m1, d, e, denom, v[..]);
    if !denomFinite || denom <= 0.00000001 {
      return false;
    }
    SubtractOuter(precisionInv, v[..], 1.0 / denom);
    AddScaled(infoVector, reward, x);
    DiscountedUpdate(m, m1, d, e, denom, v[..]);
    DiscountedTargets(info, info1, e);
    valid := resultFinite;
  }
}
