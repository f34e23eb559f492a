/** What the three online least-squares learners of `contextra-adapt` have in common: the Gram matrix and
    target vector of a discounted, weighted regression, and the rank-one formula that follows the inverse. */
module ShermanMorrison {
  import opened LinearAlgebra

  // ---- The regression ---------------------------------------------------------------------------

  // One change of the regression: everything so far is multiplied by `decay`, then the observation `x`
  // with target `target` enters with weight `weight`.
  datatype Event = Event(decay: real, weight: real, x: Vector, target: real)

  ghost predicate GoodEvent(e: Event, d: nat) {
    e.decay > 0.0 && e.weight >= 0.0 && |e.x| == d
  }

  ghost predicate GoodEvents(es: seq<Event>, d: nat) {
    forall i :: 0 <= i < |es| ==> GoodEvent(es[i], d)
  }

  // A <- decay * A + weight * x x^T, starting from ridge * I
  function Gram(es: seq<Event>, d: nat, ridge: real): (a: Matrix)
    requires GoodEvents(es, d)
    ensures Square(a, d)
  {
    if es == [] then Diagonal(d, ridge)
    else
      var e := es[|es| - 1];
      RankOne(e.decay, Gram(es[..|es| - 1], d, ridge), e.weight, e.x)
  }

  // b <- decay * b + weight * target * x, starting from `start`
  function Targets(es: seq<Event>, start: Vector): (b: Vector)
    requires GoodEvents(es, |start|)
    ensures |b| == |start|
  {
    if es == [] then start
    else
      var e := es[|es| - 1];
      Lin(e.decay, Targets(es[..|es| - 1], start), Pull(e), e.x)
  }

  function Pull(e: Event): real {
    e.weight * e.target
  }

  // `inv` is the exact inverse of a symmetric positive definite `a`, and symmetric positive definite too.
  ghost predicate Tracks(a: Matrix, inv: Matrix, d: nat) {
    && Square(a, d) && Square(inv, d)
    && Symmetric(a, d) && Symmetric(inv, d)
    && PositiveDefinite(a, d) && PositiveDefinite(inv, d)
    && Inverse(a, inv, d)
  }

  // ---- The rank-one formula ---------------------------------------------------------------------

  // v = inv x / decay
  function Direction(inv: Matrix, decay: real, x: Vector): (v: Vector)
    requires decay > 0.0 && Square(inv, |x|)
    ensures |v| == |x|
  {
    Lin(1.0 / decay, Apply(inv, x), 0.0, x)
  }

  function Denominator(inv: Matrix, e: Event): real
    requires e.decay > 0.0 && Square(inv, |e.x|)
  {
    1.0 + e.weight * Dot(e.x, Direction(inv, e.decay, e.x))
  }

  function Updated(inv: Matrix, e: Event): (r: Matrix)
    requires e.decay > 0.0 && Square(inv, |e.x|) && Denominator(inv, e) > 0.0
    ensures Square(r, |e.x|)
  {
    RankOne(1.0 / e.decay, inv, -(e.weight / Denominator(inv, e)), Direction(inv, e.decay, e.x))
  }

  /** The denominator is never below one. */
  lemma DenominatorAtLeastOne(a: Matrix, inv: Matrix, e: Event, d: nat)
    requires GoodEvent(e, d) && Tracks(a, inv, d)
    ensures Denominator(inv, e) >= 1.0
  {
    hide Inverse, PositiveDefinite, Symmetric, Apply, Dot;
    NonNegative(inv, e.x);
    DirectionDot(inv, e.decay, e.x, e.x);
    QuotientSign(Quadratic(inv, e.x), e.decay);
    ProductSign(e.weight, Dot(e.x, Direction(inv, e.decay, e.x)));
  }

  lemma DirectionDot(inv: Matrix, decay: real, x: Vector, y: Vector)
    requires decay > 0.0 && Square(inv, |x|) && |y| == |x|
    ensures Dot(y, Direction(inv, decay, x)) == 1.0 / decay * Dot(y, Apply(inv, x))
  {
    DotLin(y, 1.0 / decay, Apply(inv, x), 0.0, x);
  }

  lemma QuotientSign(q: real, c: real)
    requires q >= 0.0 && c > 0.0
    ensures 1.0 / c > 0.0 && 1.0 / c * q >= 0.0
  {
  }

  lemma ProductSign(a: real, b: real)
    requires a >= 0.0 && b >= 0.0
    ensures a * b >= 0.0
  {
  }

  // The quantities of one update, as plain numbers: g = 1 / decay, c = -weight / den.
  ghost predicate Step(a: Matrix, inv: Matrix, d: nat, decay: real, w: real, x: Vector,
                       g: real, v: Vector, den: real, c: real)
  {
    && |x| == d && |v| == d && Tracks(a, inv, d)
    && decay * g == 1.0
    && v == Lin(g, Apply(inv, x), 0.0, x)
    && den == 1.0 + w * Dot(x, v)
    && c * den == -w
  }

  lemma StepOf(a: Matrix, inv: Matrix, e: Event, d: nat)
    requires GoodEvent(e, d) && Tracks(a, inv, d)
    ensures Denominator(inv, e) >= 1.0
    ensures Step(a, inv, d, e.decay, e.weight, e.x, 1.0 / e.decay, Direction(inv, e.decay, e.x),
                 Denominator(inv, e), -(e.weight / Denominator(inv, e)))
  {
    hide Inverse, PositiveDefinite, Symmetric, Apply, Dot;
    DenominatorAtLeastOne(a, inv, e, d);
    Quotient(e.weight, Denominator(inv, e));
    Quotient(1.0, e.decay);
  }

  lemma Quotient(n: real, den: real)
    requires den > 0.0
    ensures den * (n / den) == n && -(n / den) * den == -n
  {
  }

  // A v = g x
  lemma StepImage(a: Matrix, inv: Matrix, d: nat, decay: real, w: real, x: Vector, g: real, v: Vector, den: real,
                  c: real)
    requires Step(a, inv, d, decay, w, x, g, v, den, c)
    ensures Apply(a, v) == Lin(g, x, 0.0, Apply(a, x))
  {
    ApplyLin(a, g, Apply(inv, x), 0.0, x);
    assert Apply(a, Apply(inv, x)) == x;
  }

  // v . y = g (x . inv y)
  lemma StepMoves(a: Matrix, inv: Matrix, d: nat, decay: real, w: real, x: Vector, g: real, v: Vector, den: real,
                  c: real,
                  y: Vector)
    requires Step(a, inv, d, decay, w, x, g, v, den, c) && |y| == d
    ensures Dot(v, y) == g * Dot(x, Apply(inv, y))
  {
    hide Inverse, PositiveDefinite, Apply, Dot;
    LinDot(g, Apply(inv, x), 0.0, x, y);
    SymmetricMoves(inv, x, y);
  }

  // (x . inv' y) den = v . y
  lemma StepProjects(a: Matrix, inv: Matrix, d: nat, decay: real, w: real, x: Vector, g: real, v: Vector, den: real,
                     c: real,
                     y: Vector)
    requires Step(a, inv, d, decay, w, x, g, v, den, c) && |y| == d
    ensures Dot(x, Apply(RankOne(g, inv, c, v), y)) * den == Dot(v, y)
  {
    hide Inverse, PositiveDefinite, Symmetric, Apply, Dot, RankOne;
    var q := Dot(v, y);
    var k := c * q;
    RankOneImage(g, inv, c, v, y, k);
    StepMoves(a, inv, d, decay, w, x, g, v, den, c, y);
    hide Step, Lin;
    DotLin(x, g, Apply(inv, y), k, v);
    ProjectionScalar(Dot(x, Apply(RankOne(g, inv, c, v), y)), q, w, Dot(x, v), c, den, k);
  }

  lemma RankOneImage(s: real, m: Matrix, t: real, u: Vector, x: Vector, k: real)
    requires Square(m, |u|) && |x| == |u| && k == t * Dot(u, x)
    ensures Apply(RankOne(s, m, t, u), x) == Lin(s, Apply(m, x), k, u)
  {
    hide Apply, RankOne, Dot, Lin;
    RankOneApply(s, m, t, u, x);
  }

  lemma ProjectionScalar(p: real, q: real, w: real, xv: real, c: real, den: real, k: real)
    requires den == 1.0 + w * xv && c * den == -w
    requires p == q + k * xv && k == c * q
    ensures p * den == q
  {
  }

  // A' inv' y = y
  lemma StepRight(a: Matrix, inv: Matrix, d: nat, decay: real, w: real, x: Vector, g: real, v: Vector, den: real,
                  c: real,
                  y: Vector)
    requires Step(a, inv, d, decay, w, x, g, v, den, c) && |y| == d
    ensures Apply(RankOne(decay, a, w, x), Apply(RankOne(g, inv, c, v), y)) == y
  {
    hide Apply, Dot, RankOne, Lin, Symmetric, PositiveDefinite;
    StepImage(a, inv, d, decay, w, x, g, v, den, c);
    StepProjects(a, inv, d, decay, w, x, g, v, den, c, y);
    RightFromFacts(a, inv, d, decay, w, x, g, v, den, c, y);
  }

  lemma RightFromFacts(a: Matrix, inv: Matrix, d: nat, decay: real, w: real, x: Vector, g: real, v: Vector, den: real,
                       c: real, y: Vector)
    requires |x| == |v| == |y| == d && Square(a, d) && Square(inv, d)
    requires decay * g == 1.0 && c * den == -w
    requires Apply(a, Apply(inv, y)) == y
    requires Apply(a, v) == Lin(g, x, 0.0, Apply(a, x))
    requires Dot(x, Apply(RankOne(g, inv, c, v), y)) * den == Dot(v, y)
    ensures Apply(RankOne(decay, a, w, x), Apply(RankOne(g, inv, c, v), y)) == y
  {
    hide Apply, Dot, RankOne, Lin;
    var q := Dot(v, y);
    var z := Apply(RankOne(g, inv, c, v), y);
    var p := Dot(x, z);
    var k, n := c * q, w * p;
    RankOneImage(decay, a, w, x, z, n);
    RankOneImage(g, inv, c, v, y, k);
    ApplyLin(a, g, Apply(inv, y), k, v);
    assert Apply(a, z) == Lin(g, y, k, Lin(g, x, 0.0, Apply(a, x)));
    RightEntries(decay, g, y, x, w, q, p, c, den, Apply(a, x), k, n);
  }

  lemma RightEntries(decay: real, g: real, y: Vector, x: Vector, w: real, q: real, p: real, c: real, den: real,
                     ax: Vector, k: real, n: real)
    requires decay * g == 1.0 && c * den == -w && p * den == q && k == c * q && n == w * p
    requires |x| == |y| == |ax|
    ensures Lin(decay, Lin(g, y, k, Lin(g, x, 0.0, ax)), n, x) == y
  {
    forall i | 0 <= i < |y| ensures Lin(decay, Lin(g, y, k, Lin(g, x, 0.0, ax)), n, x)[i] == y[i] {
      RightScalar(decay, g, y[i], x[i], w, q, p, c, den, ax[i], k, n);
    }
  }

  lemma RightScalar(decay: real, g: real, y: real, x: real, w: real, q: real, p: real, c: real, den: real, ax: real,
                    k: real, n: real)
    requires decay * g == 1.0 && c * den == -w && p * den == q && k == c * q && n == w * p
    ensures decay * (g * y + k * (g * x + 0.0 * ax)) + n * x == y
  {
  }

  /** One update: if the old inverse is exact, so is the new one. */
  lemma UpdatedTracks(a: Matrix, inv: Matrix, e: Event, d: nat)
    requires GoodEvent(e, d) && Tracks(a, inv, d)
    ensures Denominator(inv, e) >= 1.0
    ensures Tracks(RankOne(e.decay, a, e.weight, e.x), Updated(inv, e), d)
  {
    hide *;
    DenominatorAtLeastOne(a, inv, e, d);
    UpdatedShape(a, inv, e, d);
    forall y: Vector | |y| == d
      ensures Apply(RankOne(e.decay, a, e.weight, e.x), Apply(Updated(inv, e), y)) == y
    {
      UpdatedRight(a, inv, e, y, d);
    }
    Assemble(RankOne(e.decay, a, e.weight, e.x), Updated(inv, e), d);
  }

  lemma UpdatedShape(a: Matrix, inv: Matrix, e: Event, d: nat)
    requires GoodEvent(e, d) && Tracks(a, inv, d)
    ensures Denominator(inv, e) >= 1.0
    ensures Square(a, |e.x|) && Square(inv, |e.x|) && |e.x| == d && e.decay > 0.0
    ensures Square(RankOne(e.decay, a, e.weight, e.x), d) && Square(Updated(inv, e), d)
    ensures Symmetric(RankOne(e.decay, a, e.weight, e.x), d) && Symmetric(Updated(inv, e), d)
    ensures PositiveDefinite(RankOne(e.decay, a, e.weight, e.x), d)
  {
    hide Apply, Dot, RankOne, Lin, Direction, Denominator, Symmetric, PositiveDefinite, Inverse;
    DenominatorAtLeastOne(a, inv, e, d);
    RankOneSymmetric(e.decay, a, e.weight, e.x);
    RankOneSymmetric(1.0 / e.decay, inv, -(e.weight / Denominator(inv, e)), Direction(inv, e.decay, e.x));
    RankOneDefinite(e.decay, a, e.weight, e.x, d);
  }

  lemma UpdatedRight(a: Matrix, inv: Matrix, e: Event, y: Vector, d: nat)
    requires GoodEvent(e, d) && Tracks(a, inv, d) && |y| == d
    ensures Denominator(inv, e) >= 1.0
    ensures Apply(RankOne(e.decay, a, e.weight, e.x), Apply(Updated(inv, e), y)) == y
  {
    hide Apply, Dot, RankOne, Lin, Direction, Denominator, Symmetric, PositiveDefinite, Inverse, Step;
    DenominatorAtLeastOne(a, inv, e, d);
    StepOf(a, inv, e, d);
    StepRight(a, inv, d, e.decay, e.weight, e.x, 1.0 / e.decay, Direction(inv, e.decay, e.x),
              Denominator(inv, e), -(e.weight / Denominator(inv, e)), y);
  }

  lemma Assemble(a: Matrix, inv: Matrix, d: nat)
    requires Square(a, d) && Square(inv, d) && Symmetric(a, d) && Symmetric(inv, d) && PositiveDefinite(a, d)
    requires forall y: Vector {:trigger Apply(a, Apply(inv, y))} :: |y| == d ==> Apply(a, Apply(inv, y)) == y
    ensures Tracks(a, inv, d)
  {
    hide Apply, Symmetric, PositiveDefinite;
    forall y: Vector | |y| == d ensures Apply(inv, Apply(a, y)) == y {
      RightInverseSuffices(a, inv, d, y);
    }
    InverseDefinite(a, inv, d);
  }

  // The inverse the rank-one formula arrives at.
  ghost function Inverted(es: seq<Event>, d: nat, ridge: real): (inv: Matrix)
    requires GoodEvents(es, d) && ridge > 0.0
    ensures Tracks(Gram(es, d, ridge), inv, d)
  {
    if es == [] then
      Start(d, ridge);
      Diagonal(d, 1.0 / ridge)
    else
      var e := es[|es| - 1];
      var before := Inverted(es[..|es| - 1], d, ridge);
      UpdatedTracks(Gram(es[..|es| - 1], d, ridge), before, e, d);
      Updated(before, e)
  }

  lemma Start(d: nat, ridge: real)
    requires ridge > 0.0
    ensures Tracks(Diagonal(d, ridge), Diagonal(d, 1.0 / ridge), d)
  {
    hide Apply, Diagonal, PositiveDefinite, Symmetric, Inverse;
    Quotient(1.0, ridge);
    DiagonalDefinite(d, ridge);
    DiagonalDefinite(d, 1.0 / ridge);
    DiagonalInverse(d, ridge, 1.0 / ridge);
  }

  // ---- The estimate -----------------------------------------------------------------------------

  /** The gain form of the estimate solves the new normal equations A' theta' = b'. */
  lemma GainSolves(a: Matrix, inv: Matrix, e: Event, theta: Vector, gain: real, d: nat)
    requires GoodEvent(e, d) && Tracks(a, inv, d) && |theta| == d
    requires gain * Denominator(inv, e) == e.weight * (e.target - Dot(theta, e.x))
    ensures Apply(RankOne(e.decay, a, e.weight, e.x), Lin(1.0, theta, gain, Direction(inv, e.decay, e.x))) ==
            Lin(e.decay, Apply(a, theta), Pull(e), e.x)
  {
    hide Apply, Dot, RankOne, Lin, Direction, Symmetric, PositiveDefinite, Inverse, Step;
    StepOf(a, inv, e, d);
    StepGain(a, inv, d, e.decay, e.weight, e.x, 1.0 / e.decay, Direction(inv, e.decay, e.x),
             Denominator(inv, e), -(e.weight / Denominator(inv, e)), theta, e.target, gain, Pull(e));
  }

  lemma StepGain(a: Matrix, inv: Matrix, d: nat, decay: real, w: real, x: Vector, g: real, v: Vector, den: real,
                 c: real,
                 theta: Vector, r: real, gain: real, m: real)
    requires Step(a, inv, d, decay, w, x, g, v, den, c) && |theta| == d
    requires gain * den == w * (r - Dot(theta, x)) && m == w * r
    ensures Apply(RankOne(decay, a, w, x), Lin(1.0, theta, gain, v)) == Lin(decay, Apply(a, theta), m, x)
  {
    hide Apply, Dot, RankOne, Lin, Symmetric, PositiveDefinite;
    StepImage(a, inv, d, decay, w, x, g, v, den, c);
    GainFromFacts(a, d, decay, w, x, g, v, den, theta, r, gain, m);
  }

  lemma GainFromFacts(a: Matrix, d: nat, decay: real, w: real, x: Vector, g: real, v: Vector, den: real,
                      theta: Vector, r: real, gain: real, m: real)
    requires |x| == |v| == |theta| == d && Square(a, d)
    requires decay * g == 1.0 && den == 1.0 + w * Dot(x, v)
    requires Apply(a, v) == Lin(g, x, 0.0, Apply(a, x))
    requires gain * den == w * (r - Dot(theta, x)) && m == w * r
    ensures Apply(RankOne(decay, a, w, x), Lin(1.0, theta, gain, v)) == Lin(decay, Apply(a, theta), m, x)
  {
    hide Apply, Dot, RankOne, Lin;
    var z := Lin(1.0, theta, gain, v);
    var n := w * Dot(x, z);
    RankOneImage(decay, a, w, x, z, n);
    ApplyLin(a, 1.0, theta, gain, v);
    DotLin(x, 1.0, theta, gain, v);
    DotSymmetric(x, theta);
    GainScalar(n, m, w, Dot(theta, x), gain, Dot(x, v), den, r);
    GainEntries(decay, g, Apply(a, theta), gain, x, Apply(a, x), n, m);
  }

  lemma GainScalar(n: real, m: real, w: real, tx: real, gain: real, xv: real, den: real, r: real)
    requires den == 1.0 + w * xv && gain * den == w * (r - tx) && m == w * r
    requires n == w * (tx + gain * xv)
    ensures gain + n == m
  {
  }

  lemma GainEntries(decay: real, g: real, b: Vector, gain: real, x: Vector, ax: Vector, n: real, m: real)
    requires |b| == |x| == |ax| && decay * g == 1.0 && gain + n == m
    ensures Lin(decay, Lin(1.0, b, gain, Lin(g, x, 0.0, ax)), n, x) == Lin(decay, b, m, x)
  {
    forall i | 0 <= i < |x|
      ensures Lin(decay, Lin(1.0, b, gain, Lin(g, x, 0.0, ax)), n, x)[i] == Lin(decay, b, m, x)[i]
    {
      GainEntry(decay, g, b[i], gain, x[i], ax[i], n, m);
    }
  }

  lemma GainEntry(decay: real, g: real, b: real, gain: real, x: real, ax: real, n: real, m: real)
    requires decay * g == 1.0 && gain + n == m
    ensures decay * (1.0 * b + gain * (g * x + 0.0 * ax)) + n * x == decay * b + m * x
  {
  }

  // The state is the one `events` lead to: an exact inverse, and a solution of the normal equations.
  ghost predicate Fits(events: seq<Event>, start: Vector, inv: Matrix, theta: Vector, d: nat, ridge: real) {
    && |start| == |theta| == d && GoodEvents(events, d)
    && Tracks(Gram(events, d, ridge), inv, d)
    && Apply(Gram(events, d, ridge), theta) == Targets(events, start)
  }

  lemma FitsAtStart(start: Vector, d: nat)
    requires |start| == d
    ensures Fits([], start, Diagonal(d, 1.0), start, d, 1.0)
  {
    hide Apply, Diagonal, Tracks;
    Start(d, 1.0);
    DiagonalApply(d, 1.0, start);
    assert Lin(1.0, start, 0.0, start) == start;
  }

  lemma GramNext(events: seq<Event>, e: Event, start: Vector, d: nat, ridge: real)
    requires |start| == d && GoodEvents(events, d) && GoodEvent(e, d)
    ensures GoodEvents(events + [e], d)
    ensures Gram(events + [e], d, ridge) == RankOne(e.decay, Gram(events, d, ridge), e.weight, e.x)
    ensures Targets(events + [e], start) == Lin(e.decay, Targets(events, start), Pull(e), e.x)
  {
  }

  /** One accepted observation, on values. */
  lemma FitsNext(events: seq<Event>, start: Vector, inv: Matrix, theta: Vector, d: nat, ridge: real,
                 e: Event, gain: real)
    requires Fits(events, start, inv, theta, d, ridge) && GoodEvent(e, d)
    requires Denominator(inv, e) > 0.0
    requires gain * Denominator(inv, e) == e.weight * (e.target - Dot(theta, e.x))
    ensures Denominator(inv, e) >= 1.0
    ensures Fits(events + [e], start, Updated(inv, e), Lin(1.0, theta, gain, Direction(inv, e.decay, e.x)), d, ridge)
  {
    hide Apply, RankOne, Lin, Tracks, Gram, Targets, Updated, Denominator, Direction, Dot;
    var a := Gram(events, d, ridge);
    GramNext(events, e, start, d, ridge);
    UpdatedTracks(a, inv, e, d);
    GainSolves(a, inv, e, theta, gain, d);
  }

  /** States that fit the same history are the same, however they were computed. */
  lemma FitUnique(events: seq<Event>, start: Vector, d: nat, ridge: real,
                  inv: Matrix, theta: Vector, inv': Matrix, theta': Vector)
    requires Fits(events, start, inv, theta, d, ridge) && Fits(events, start, inv', theta', d, ridge)
    ensures inv == inv' && theta == theta'
  {
    hide Apply, Symmetric, PositiveDefinite, Gram, Targets;
    var a := Gram(events, d, ridge);
    InverseUnique(a, inv, inv', d);
    assert Apply(inv, Apply(a, theta)) == theta && Apply(inv, Apply(a, theta')) == theta';
  }

  // ---- What the estimate is for -----------------------------------------------------------------

  // The discounted, weighted sum of the squared errors of `theta`, and the ridge term with which it began.
  function Loss(es: seq<Event>, start: Vector, ridge: real, theta: Vector): real
    requires GoodEvents(es, |start|) && |theta| == |start|
  {
    if es == [] then ridge * Dot(theta, theta) - 2.0 * Dot(start, theta)
    else
      var e := es[|es| - 1];
      e.decay * Loss(es[..|es| - 1], start, ridge, theta)
        + e.weight * ((e.target - Dot(theta, e.x)) * (e.target - Dot(theta, e.x)))
  }

  lemma ErrorScalar(l: real, l0: real, q: real, p: real, y: real, dot: real, decay: real, weight: real, pull: real)
    requires l == l0 + q - 2.0 * p && pull == weight * y
    ensures decay * l + weight * ((y - dot) * (y - dot)) == (decay * l0 + weight * (y * y))
      + (Times(decay, q) + Times(weight, Times(dot, dot))) - 2.0 * (decay * p + pull * dot)
  {
    assert weight * ((y - dot) * (y - dot)) == weight * (y * y) - 2.0 * (weight * y * dot) + weight * (dot * dot);
    assert decay * l == decay * l0 + decay * q - 2.0 * (decay * p);
  }

  lemma LossOfZeros(es: seq<Event>, start: Vector, ridge: real)
    requires GoodEvents(es, |start|)
    ensures Loss(es, start, ridge, Zeros(|start|)) ==
      if es == [] then 0.0
      else
        es[|es| - 1].decay * Loss(es[..|es| - 1], start, ridge, Zeros(|start|)) +
        es[|es| - 1].weight * (es[|es| - 1].target * es[|es| - 1].target)
  {
    var zeros := Zeros(|start|);
    if es == [] {
      DotSquare(zeros);
      DotToZeros(start, |start|);
    } else {
      var e := es[|es| - 1];
      DotToZeros(e.x, |start|);
      DotSymmetric(zeros, e.x);
    }
  }

  /** The loss as a quadratic in the estimate: its matrix is the Gram matrix and its vector that of the targets. */
  lemma {:induction false} LossIsQuadratic(es: seq<Event>, start: Vector, ridge: real, theta: Vector)
    requires GoodEvents(es, |start|) && |theta| == |start|
    ensures Loss(es, start, ridge, theta) == Loss(es, start, ridge, Zeros(|start|))
      + Quadratic(Gram(es, |start|, ridge), theta) - 2.0 * Dot(Targets(es, start), theta)
  {
    hide Dot, RankOne, Lin, Quadratic, Times, Pull;
    LossOfZeros(es, start, ridge);
    if es == [] {
      RidgeQuadratic(|start|, ridge, theta);
    } else {
      var front, e := es[..|es| - 1], es[|es| - 1];
      LossIsQuadratic(front, start, ridge, theta);
      RankOneQuadratic(e.decay, Gram(front, |start|, ridge), e.weight, e.x, theta);
      LinDot(e.decay, Targets(front, start), Pull(e), e.x, theta);
      DotSymmetric(e.x, theta);
      PullIs(e);
      ErrorScalar(Loss(front, start, ridge, theta), Loss(front, start, ridge, Zeros(|start|)),
        Quadratic(Gram(front, |start|, ridge), theta), Dot(Targets(front, start), theta), e.target, Dot(theta, e.x),
        e.decay, e.weight, Pull(e));
    }
  }

  lemma PullIs(e: Event)
    ensures Pull(e) == e.weight * e.target
  {
  }

  lemma RidgeQuadratic(d: nat, ridge: real, x: Vector)
    requires |x| == d
    ensures Quadratic(Diagonal(d, ridge), x) == ridge * Dot(x, x)
  {
    DiagonalApply(d, ridge, x);
    DotLin(x, ridge, x, 0.0, x);
  }

  /** The estimate of every state that fits a history is the one vector of least loss over it: any other loses by the
      Gram matrix's square of the difference, which is positive. */
  lemma EstimateIsBest(events: seq<Event>, start: Vector, inv: Matrix, theta: Vector, d: nat, ridge: real, phi: Vector)
    requires Fits(events, start, inv, theta, d, ridge) && |phi| == d && phi != theta
    ensures Loss(events, start, ridge, theta) < Loss(events, start, ridge, phi)
  {
    hide Dot, Lin, Apply, Quadratic, Gram, Targets, Loss, Symmetric, Inverse;
    var a, b, h := Gram(events, d, ridge), Targets(events, start), Lin(1.0, phi, -1.0, theta);
    LossIsQuadratic(events, start, ridge, theta);
    LossIsQuadratic(events, start, ridge, phi);
    DifferenceBack(theta, phi);
    QuadraticShift(a, b, theta, h);
    NothingLeft(b, h);
    if h == Zeros(d) {
      SameVectors(theta, phi);
      assert false;
    }
  }

  lemma NothingLeft(b: Vector, h: Vector)
    requires |h| == |b|
    ensures Dot(Lin(1.0, b, -1.0, b), h) == 0.0
  {
    LinDot(1.0, b, -1.0, b, h);
  }

  lemma SameVectors(x: Vector, y: Vector)
    requires |x| == |y| && Lin(1.0, y, -1.0, x) == Zeros(|x|)
    ensures x == y
  {
    forall i | 0 <= i < |x| ensures x[i] == y[i] {
      assert Lin(1.0, y, -1.0, x)[i] == Zeros(|x|)[i];
    }
  }
}
