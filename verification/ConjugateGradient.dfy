/** `solve_conjugate_gradient` of `crates/contextra-adapt/src/flow_thompson.rs`, on exact reals: what its
    loop keeps, and how close its answer is. */
module ConjugateGradient {
  import opened LinearAlgebra
  import opened RowMajor

  // ---- No more than d orthogonal vectors in d dimensions ------------------------------------------

  ghost predicate Orthogonal(vs: seq<Vector>, d: nat) {
    && (forall i :: 0 <= i < |vs| ==> |vs[i]| == d)
    && (forall i, j :: 0 <= i < |vs| && 0 <= j < |vs| && i != j ==> Dot(vs[i], vs[j]) == 0.0)
  }

  ghost predicate NonZero(vs: seq<Vector>) {
    forall i :: 0 <= i < |vs| ==> Dot(vs[i], vs[i]) > 0.0
  }

  // The share of the unit vector `e` that the vectors `vs` do not account for.
  function Rest(vs: seq<Vector>, e: Vector): (w: Vector)
    requires forall i :: 0 <= i < |vs| ==> |vs[i]| == |e|
    requires NonZero(vs)
    ensures |w| == |e|
  {
    if vs == [] then e
    else
      var v := vs[|vs| - 1];
      Lin(1.0, Rest(vs[..|vs| - 1], e), -(Dot(v, e) / Dot(v, v)), v)
  }

  // Squared coordinates, each divided by the square of its vector.
  function Shares(vs: seq<Vector>, d: nat): (s: Vector)
    requires forall i :: 0 <= i < |vs| ==> |vs[i]| == d
    requires NonZero(vs)
    ensures |s| == d
  {
    if vs == [] then Zeros(d)
    else
      var v := vs[|vs| - 1];
      Lin(1.0, Shares(vs[..|vs| - 1], d), 1.0 / Dot(v, v), Squares(v))
  }

  function Squares(v: Vector): (s: Vector)
    ensures |s| == |v|
  {
    seq(|v|, i requires 0 <= i < |v| => Times(v[i], v[i]))
  }

  function Ones(d: nat): (s: Vector)
    ensures |s| == d
  {
    seq(d, i => 1.0)
  }

  lemma Front(vs: seq<Vector>, d: nat)
    requires Orthogonal(vs, d) && NonZero(vs) && vs != []
    ensures Orthogonal(vs[..|vs| - 1], d) && NonZero(vs[..|vs| - 1])
  {
  }

  // A vector orthogonal to all of `vs` sees `Rest` as it sees `e`.
  lemma {:induction false} RestSeen(vs: seq<Vector>, e: Vector, u: Vector)
    requires Orthogonal(vs, |e|) && NonZero(vs) && |u| == |e|
    requires forall i :: 0 <= i < |vs| ==> Dot(vs[i], u) == 0.0
    ensures Dot(Rest(vs, e), u) == Dot(e, u)
  {
    if vs != [] {
      var v := vs[|vs| - 1];
      Front(vs, |e|);
      RestSeen(vs[..|vs| - 1], e, u);
      LinDot(1.0, Rest(vs[..|vs| - 1], e), -(Dot(v, e) / Dot(v, v)), v, u);
    }
  }

  lemma SquareOfLin(w: Vector, c: real, v: Vector)
    requires |w| == |v|
    ensures Dot(Lin(1.0, w, c, v), Lin(1.0, w, c, v)) == Dot(w, w) + 2.0 * c * Dot(w, v) + c * c * Dot(v, v)
  {
    hide Dot, Lin;
    LinDot(1.0, w, c, v, Lin(1.0, w, c, v));
    DotLin(w, 1.0, w, c, v);
    DotLin(v, 1.0, w, c, v);
    DotSymmetric(v, w);
    SquareScalar(Dot(w, w), Dot(w, v), Dot(v, v), c);
  }

  lemma SquareScalar(ww: real, wv: real, vv: real, c: real)
    ensures (ww + c * wv) + c * (wv + c * vv) == ww + 2.0 * c * wv + c * c * vv
  {
  }

  /** Bessel's inequality for a unit vector, as an equation. */
  lemma {:induction false} RestSquare(vs: seq<Vector>, d: nat, i: nat)
    requires Orthogonal(vs, d) && NonZero(vs) && i < d
    ensures Dot(Rest(vs, Diagonal(d, 1.0)[i]), Rest(vs, Diagonal(d, 1.0)[i])) == 1.0 - Shares(vs, d)[i]
  {
    if vs == [] {
      DotUnit(Diagonal(d, 1.0)[i], d, i);
    } else {
      hide Dot, Lin, Diagonal;
      Front(vs, d);
      RestSquare(vs[..|vs| - 1], d, i);
      RestStep(vs, d, i);
    }
  }

  lemma RestStep(vs: seq<Vector>, d: nat, i: nat)
    requires Orthogonal(vs, d) && NonZero(vs) && i < d && vs != []
    ensures var e := Diagonal(d, 1.0)[i];
      var front := vs[..|vs| - 1];
      Dot(Rest(vs, e), Rest(vs, e)) - Dot(Rest(front, e), Rest(front, e)) == Shares(front, d)[i] - Shares(vs, d)[i]
  {
    hide Dot, Lin, Diagonal, Shares;
    var e := Diagonal(d, 1.0)[i];
    var v, front := vs[|vs| - 1], vs[..|vs| - 1];
    SharesEntry(vs, d, i);
    Front(vs, d);
    RestSeen(front, e, v);
    DotUnit(v, d, i);
    DotSymmetric(e, v);
    var c := -(Dot(v, e) / Dot(v, v));
    SquareOfLin(Rest(front, e), c, v);
    BesselScalar(v[i], Dot(v, v), c);
  }

  lemma SharesEntry(vs: seq<Vector>, d: nat, i: nat)
    requires Orthogonal(vs, d) && NonZero(vs) && i < d && vs != []
    ensures var v := vs[|vs| - 1];
      Shares(vs, d)[i] == Shares(vs[..|vs| - 1], d)[i] + 1.0 / Dot(v, v) * Times(v[i], v[i])
  {
    hide Dot, Times;
  }

  lemma BesselScalar(x: real, vv: real, c: real)
    requires vv > 0.0 && c == -(x / vv)
    ensures 2.0 * c * x + c * c * vv == -(1.0 / vv * Times(x, x))
  {
  }

  lemma {:induction false} OnesBound(s: Vector, n: nat)
    requires n <= |s| && forall i :: 0 <= i < n ==> s[i] <= 1.0
    ensures DotTo(Ones(|s|), s, n) <= n as real
  {
    if n > 0 { OnesBound(s, n - 1); }
  }

  lemma {:induction false} OnesSquares(v: Vector, n: nat)
    requires n <= |v|
    ensures DotTo(Ones(|v|), Squares(v), n) == DotTo(v, v, n)
  {
    if n > 0 { OnesSquares(v, n - 1); }
  }

  lemma {:induction false} SharesSum(vs: seq<Vector>, d: nat)
    requires Orthogonal(vs, d) && NonZero(vs)
    ensures Dot(Ones(d), Shares(vs, d)) == |vs| as real
  {
    if vs == [] {
      DotToZeros(Ones(d), d);
    } else {
      var v, front := vs[|vs| - 1], vs[..|vs| - 1];
      Front(vs, d);
      SharesSum(front, d);
      DotLin(Ones(d), 1.0, Shares(front, d), 1.0 / Dot(v, v), Squares(v));
      OnesSquares(v, d);
      assert 1.0 / Dot(v, v) * Dot(v, v) == 1.0;
    }
  }

  /** In d dimensions there are at most d pairwise orthogonal vectors other than zero. */
  lemma OrthogonalCount(vs: seq<Vector>, d: nat)
    requires Orthogonal(vs, d) && NonZero(vs)
    ensures |vs| <= d
  {
    var s := Shares(vs, d);
    forall i | 0 <= i < d ensures s[i] <= 1.0 {
      RestSquare(vs, d, i);
      DotSquare(Rest(vs, Diagonal(d, 1.0)[i]));
    }
    OnesBound(s, d);
    SharesSum(vs, d);
  }

  // ---- One iteration ----------------------------------------------------------------------------

  ghost predicate Conjugate(m: Matrix, ps: seq<Vector>, d: nat)
    requires Square(m, d)
  {
    && (forall i :: 0 <= i < |ps| ==> |ps[i]| == d)
    && (forall i, j :: 0 <= i < |ps| && 0 <= j < |ps| && i != j ==> Dot(ps[i], Apply(m, ps[j])) == 0.0)
  }

  // The residuals `rs`, directions `ps`, step lengths `al` and mixing factors `be` of a run on m x = b.
  // A direction is computed only when the run goes on.
  ghost predicate Trace(m: Matrix, b: Vector, d: nat, rs: seq<Vector>, ps: seq<Vector>, al: seq<real>, be: seq<real>) {
    && Square(m, d) && |b| == d
    && |rs| == |al| + 1 && |ps| == |be| + 1 && |be| <= |al| <= |ps|
    && Orthogonal(rs, d) && Conjugate(m, ps, d)
    && rs[0] == b && ps[0] == b
    && (forall j :: 0 <= j < |al| ==> Advances(m, d, rs, ps, al[j], j))
    && (forall j :: 0 <= j < |be| ==> Mixes(d, rs, ps, be[j], j))
    && (forall j :: 0 <= j < |ps| ==> Dot(rs[j], ps[j]) == Dot(rs[j], rs[j]))
  }

  ghost predicate Advances(m: Matrix, d: nat, rs: seq<Vector>, ps: seq<Vector>, alpha: real, j: nat)
    requires Square(m, d) && j + 1 < |rs| && j < |ps|
    requires |rs[j]| == |rs[j + 1]| == |ps[j]| == d
  {
    && Dot(rs[j], rs[j]) > 0.0 && Quadratic(m, ps[j]) > 0.0
    && alpha == Dot(rs[j], rs[j]) / Quadratic(m, ps[j])
    && rs[j + 1] == Lin(1.0, rs[j], -alpha, Apply(m, ps[j]))
  }

  ghost predicate Mixes(d: nat, rs: seq<Vector>, ps: seq<Vector>, beta: real, j: nat)
    requires j + 1 < |rs| && j + 1 < |ps|
    requires |rs[j]| == |rs[j + 1]| == |ps[j]| == |ps[j + 1]| == d
  {
    && Dot(rs[j], rs[j]) > 0.0
    && beta == Dot(rs[j + 1], rs[j + 1]) / Dot(rs[j], rs[j])
    && ps[j + 1] == Lin(1.0, rs[j + 1], beta, ps[j])
  }

  // Residual `j` sees the image of the newest direction only if it is the newest residual.
  lemma ResidualImage(m: Matrix, b: Vector, d: nat, rs: seq<Vector>, ps: seq<Vector>, al: seq<real>, be: seq<real>,
                      j: nat)
    requires Trace(m, b, d, rs, ps, al, be) && |be| == |al| && j <= |al|
    ensures Dot(rs[j], Apply(m, ps[|al|])) == if j == |al| then Quadratic(m, ps[|al|]) else 0.0
  {
    var k := |al|;
    var image := Apply(m, ps[k]);
    if j > 0 {
      assert Mixes(d, rs, ps, be[j - 1], j - 1);
      LinDot(1.0, rs[j], be[j - 1], ps[j - 1], image);
      assert Dot(ps[j - 1], image) == 0.0;
    }
  }

  lemma NextResidual(m: Matrix, b: Vector, d: nat, rs: seq<Vector>, ps: seq<Vector>, al: seq<real>, be: seq<real>,
                     alpha: real, r': Vector)
    requires Trace(m, b, d, rs, ps, al, be) && |be| == |al|
    requires var k := |al|;
      && Dot(rs[k], rs[k]) > 0.0 && Quadratic(m, ps[k]) > 0.0
      && alpha == Dot(rs[k], rs[k]) / Quadratic(m, ps[k])
      && r' == Lin(1.0, rs[k], -alpha, Apply(m, ps[k]))
    ensures Trace(m, b, d, rs + [r'], ps, al + [alpha], be)
    ensures Dot(r', ps[|al|]) == 0.0
  {
    hide Dot, Lin, Apply, Mixes;
    var k := |al|;
    var p, image := ps[k], Apply(m, ps[k]);
    forall j | 0 <= j <= k ensures Dot(r', rs[j]) == 0.0 && Dot(rs[j], r') == 0.0 {
      ResidualImage(m, b, d, rs, ps, al, be, j);
      DotLin(rs[j], 1.0, rs[k], -alpha, image);
      DotSymmetric(r', rs[j]);
      Cancelled(Dot(rs[k], rs[k]), Quadratic(m, p), alpha);
    }
    DotLin(p, 1.0, rs[k], -alpha, image);
    DotSymmetric(p, rs[k]);
    DotSymmetric(p, r');
    Cancelled(Dot(rs[k], rs[k]), Quadratic(m, p), alpha);
    Extended(m, b, d, rs, ps, al, be, alpha, r');
  }

  lemma Cancelled(rr: real, pap: real, alpha: real)
    requires pap > 0.0 && alpha == rr / pap
    ensures 1.0 * rr + -alpha * pap == 0.0 && alpha * pap == rr
  {
  }

  lemma Extended(m: Matrix, b: Vector, d: nat, rs: seq<Vector>, ps: seq<Vector>, al: seq<real>, be: seq<real>,
                 alpha: real, r': Vector)
    requires Trace(m, b, d, rs, ps, al, be) && |be| == |al| && |r'| == d
    requires forall j :: 0 <= j <= |al| ==> Dot(r', rs[j]) == 0.0 && Dot(rs[j], r') == 0.0
    requires Advances(m, d, rs + [r'], ps, alpha, |al|)
    ensures Trace(m, b, d, rs + [r'], ps, al + [alpha], be)
  {
    hide Dot, Lin, Apply;
    var rs', al' := rs + [r'], al + [alpha];
    forall j | 0 <= j < |al'| ensures Advances(m, d, rs', ps, al'[j], j) {
      if j < |al| { assert Advances(m, d, rs, ps, al[j], j); }
    }
    forall j | 0 <= j < |be| ensures Mixes(d, rs', ps, be[j], j) {
      assert Mixes(d, rs, ps, be[j], j);
    }
  }

  // The newest residual sees the image of an earlier direction only if it is the latest one.
  lemma ImageOfEarlier(m: Matrix, b: Vector, d: nat, rs: seq<Vector>, ps: seq<Vector>, al: seq<real>, be: seq<real>,
                       j: nat)
    requires Trace(m, b, d, rs, ps, al, be) && j < |al|
    ensures al[j] > 0.0
    ensures al[j] * Dot(rs[|al|], Apply(m, ps[j])) == if j + 1 == |al| then -Dot(rs[|al|], rs[|al|]) else 0.0
  {
    var n := |al|;
    assert Advances(m, d, rs, ps, al[j], j);
    DotLin(rs[n], 1.0, rs[j], -al[j], Apply(m, ps[j]));
    QuotientPositive(Dot(rs[j], rs[j]), Quadratic(m, ps[j]));
  }

  lemma QuotientPositive(a: real, b: real)
    requires a > 0.0 && b > 0.0
    ensures a / b > 0.0
  {
  }

  lemma NextDirection(m: Matrix, b: Vector, d: nat, rs: seq<Vector>, ps: seq<Vector>, al: seq<real>, be: seq<real>,
                      beta: real, p': Vector)
    requires Trace(m, b, d, rs, ps, al, be) && |be| + 1 == |al| && Symmetric(m, d)
    requires Dot(rs[|al|], ps[|be|]) == 0.0 && Dot(rs[|be|], rs[|be|]) > 0.0
    requires var k := |be|;
      && beta == Dot(rs[k + 1], rs[k + 1]) / Dot(rs[k], rs[k])
      && p' == Lin(1.0, rs[k + 1], beta, ps[k])
    ensures Trace(m, b, d, rs, ps + [p'], al, be + [beta])
  {
    var k := |be|;
    var r, p := rs[k + 1], ps[k];
    assert Advances(m, d, rs, ps, al[k], k);
    forall j | 0 <= j <= k ensures Dot(p', Apply(m, ps[j])) == 0.0 && Dot(ps[j], Apply(m, p')) == 0.0 {
      var image := Apply(m, ps[j]);
      LinDot(1.0, r, beta, p, image);
      ImageOfEarlier(m, b, d, rs, ps, al, be, j);
      if j == k {
        ConjugateScalar(Dot(r, image), Dot(r, r), Dot(rs[k], rs[k]), Quadratic(m, p), al[k], beta);
      } else {
        assert Dot(p, image) == 0.0;
        ZeroFactor(al[j], Dot(r, image));
      }
      SymmetricMoves(m, ps[j], p');
      DotSymmetric(image, p');
    }
    DotLin(r, 1.0, r, beta, p);
    Turned(m, b, d, rs, ps, al, be, beta, p');
  }

  lemma ZeroFactor(a: real, x: real)
    requires a > 0.0 && a * x == 0.0
    ensures x == 0.0
  {
  }

  lemma ConjugateScalar(x: real, rr': real, rr: real, pap: real, alpha: real, beta: real)
    requires rr > 0.0 && pap > 0.0 && alpha == rr / pap && beta == rr' / rr && alpha * x == -rr'
    ensures 1.0 * x + beta * pap == 0.0
  {
  }

  lemma Turned(m: Matrix, b: Vector, d: nat, rs: seq<Vector>, ps: seq<Vector>, al: seq<real>, be: seq<real>,
               beta: real, p': Vector)
    requires Trace(m, b, d, rs, ps, al, be) && |be| + 1 == |al| && |p'| == d
    requires forall j :: 0 <= j <= |be| ==> Dot(p', Apply(m, ps[j])) == 0.0 && Dot(ps[j], Apply(m, p')) == 0.0
    requires Mixes(d, rs, ps + [p'], beta, |be|)
    requires Dot(rs[|al|], p') == Dot(rs[|al|], rs[|al|])
    ensures Trace(m, b, d, rs, ps + [p'], al, be + [beta])
  {
    hide Dot, Lin, Apply;
    var ps', be' := ps + [p'], be + [beta];
    forall j | 0 <= j < |al| ensures Advances(m, d, rs, ps', al[j], j) {
      assert Advances(m, d, rs, ps, al[j], j);
    }
    forall j | 0 <= j < |be'| ensures Mixes(d, rs, ps', be'[j], j) {
      if j < |be| { assert Mixes(d, rs, ps, be[j], j); }
    }
    forall i, j | 0 <= i < |ps'| && 0 <= j < |ps'| && i != j ensures Dot(ps'[i], Apply(m, ps'[j])) == 0.0 {
      if i < |ps| && j < |ps| { assert Dot(ps[i], Apply(m, ps[j])) == 0.0; }
    }
  }

  // ---- Residual and energy ----------------------------------------------------------------------

  // b - m x
  function Residual(m: Matrix, b: Vector, x: Vector): (r: Vector)
    requires Square(m, |x|) && |b| == |x|
    ensures |r| == |x|
  {
    Lin(1.0, b, -1.0, Apply(m, x))
  }

  // Half of x m x, minus b x: what the solution of m x = b makes least.
  function Energy(m: Matrix, b: Vector, x: Vector): real
    requires Square(m, |x|) && |b| == |x|
  {
    0.5 * Quadratic(m, x) - Dot(b, x)
  }

  lemma ResidualMoves(m: Matrix, b: Vector, x: Vector, alpha: real, p: Vector)
    requires Square(m, |x|) && |b| == |x| == |p|
    ensures Residual(m, b, Lin(1.0, x, alpha, p)) == Lin(1.0, Residual(m, b, x), -alpha, Apply(m, p))
  {
    hide Apply;
    ApplyLin(m, 1.0, x, alpha, p);
  }

  /** An iteration lowers the energy by half of alpha r . r. */
  lemma EnergyFalls(m: Matrix, b: Vector, x: Vector, alpha: real, p: Vector, rr: real)
    requires Square(m, |x|) && |b| == |x| == |p| && Symmetric(m, |x|)
    requires Dot(Residual(m, b, x), p) == rr && alpha * Quadratic(m, p) == rr
    ensures Energy(m, b, Lin(1.0, x, alpha, p)) == Energy(m, b, x) - 0.5 * (alpha * rr)
  {
    hide Apply, Dot, Lin;
    var y := Lin(1.0, x, alpha, p);
    ApplyLin(m, 1.0, x, alpha, p);
    LinDot(1.0, x, alpha, p, Lin(1.0, Apply(m, x), alpha, Apply(m, p)));
    DotLin(x, 1.0, Apply(m, x), alpha, Apply(m, p));
    DotLin(p, 1.0, Apply(m, x), alpha, Apply(m, p));
    SymmetricMoves(m, x, p);
    DotSymmetric(Apply(m, x), p);
    DotLin(b, 1.0, x, alpha, p);
    LinDot(1.0, b, -1.0, Apply(m, x), p);
    EnergyScalar(Quadratic(m, x), Dot(p, Apply(m, x)), Quadratic(m, p), Dot(b, x), Dot(b, p), alpha, rr);
  }

  lemma EnergyScalar(xx: real, px: real, pp: real, bx: real, bp: real, alpha: real, rr: real)
    requires bp - px == rr && alpha * pp == rr
    ensures 0.5 * ((xx + alpha * px) + alpha * (px + alpha * pp)) - (bx + alpha * bp) ==
      0.5 * xx - bx - 0.5 * (alpha * rr)
  {
  }

  // x m x is at least rho times x x.
  ghost predicate Coercive(m: Matrix, d: nat, rho: real)
    requires Square(m, d)
  {
    forall x: Vector {:trigger Quadratic(m, x)} :: |x| == d ==> Quadratic(m, x) >= Times(rho, Dot(x, x))
  }

  /** A direction that gives up nothing of the residual is at least as long as it. */
  lemma DirectionLong(r: Vector, p: Vector)
    requires |r| == |p| && Dot(r, p) == Dot(r, r)
    ensures Dot(p, p) >= Dot(r, r)
  {
    var q := Lin(1.0, p, -1.0, r);
    SquareOfLin(p, -1.0, r);
    DotSymmetric(p, r);
    DotSquare(q);
  }

  // ---- The solver -------------------------------------------------------------------------------

  // The iterates `xs` with their residuals `rs` and the directions `ps` taken between them.
  ghost predicate Descent(m: Matrix, b: Vector, d: nat, xs: seq<Vector>, rs: seq<Vector>, ps: seq<Vector>) {
    && Square(m, d) && |b| == d && |xs| == |rs| && xs != [] && xs[0] == Zeros(d)
    && Orthogonal(rs, d) && Conjugate(m, ps, d)
    && (forall j :: 0 <= j < |xs| ==> |xs[j]| == d && rs[j] == Residual(m, b, xs[j]))
    && (forall j :: 0 <= j && j + 1 < |xs| ==> Energy(m, b, xs[j + 1]) < Energy(m, b, xs[j]))
  }

  /** No iterate of a descent has more energy than the start, which has none. */
  lemma {:induction false} EnergyNeverPositive(m: Matrix, b: Vector, d: nat, xs: seq<Vector>, rs: seq<Vector>,
                                               ps: seq<Vector>, n: nat)
    requires Descent(m, b, d, xs, rs, ps) && n < |xs|
    ensures Energy(m, b, xs[n]) <= 0.0
  {
    hide Energy, Dot, Orthogonal, Conjugate, Residual;
    if n == 0 {
      EnergyOfZeros(m, b, d);
    } else {
      EnergyNeverPositive(m, b, d, xs, rs, ps, n - 1);
    }
  }

  lemma EnergyOfZeros(m: Matrix, b: Vector, d: nat)
    requires Square(m, d) && |b| == d
    ensures Energy(m, b, Zeros(d)) == 0.0
  {
    DotToZeros(b, d);
    DotToZeros(Apply(m, Zeros(d)), d);
    DotSymmetric(Zeros(d), Apply(m, Zeros(d)));
  }

  // The state at the head of the loop.
  ghost predicate Running(m: Matrix, b: Vector, d: nat, xs: seq<Vector>, rs: seq<Vector>, ps: seq<Vector>,
                          al: seq<real>, be: seq<real>)
  {
    && Trace(m, b, d, rs, ps, al, be) && |be| == |al| && NonZero(rs) && Descent(m, b, d, xs, rs, ps)
  }

  lemma RunStarts(m: Matrix, b: Vector, d: nat)
    requires Square(m, d) && |b| == d
    ensures Descent(m, b, d, [Zeros(d)], [b], [b])
    ensures Dot(b, b) > 0.0 ==> Running(m, b, d, [Zeros(d)], [b], [b], [], [])
  {
    ApplyZeros(m, d);
    assert Residual(m, b, Zeros(d)) == b;
  }

  lemma RunSteps(m: Matrix, b: Vector, d: nat, xs: seq<Vector>, rs: seq<Vector>, ps: seq<Vector>,
                 al: seq<real>, be: seq<real>, alpha: real)
    requires Running(m, b, d, xs, rs, ps, al, be) && Symmetric(m, d)
    requires Quadratic(m, ps[|al|]) > 0.0 && alpha == Dot(rs[|al|], rs[|al|]) / Quadratic(m, ps[|al|])
    ensures var k := |al|;
      var x', r' := Lin(1.0, xs[k], alpha, ps[k]), Lin(1.0, rs[k], -alpha, Apply(m, ps[k]));
      && Trace(m, b, d, rs + [r'], ps, al + [alpha], be)
      && Descent(m, b, d, xs + [x'], rs + [r'], ps)
      && Dot(r', ps[k]) == 0.0
  {
    hide Dot, Apply, Lin, Residual, Energy, Symmetric;
    var k := |al|;
    var x', r' := Lin(1.0, xs[k], alpha, ps[k]), Lin(1.0, rs[k], -alpha, Apply(m, ps[k]));
    NextResidual(m, b, d, rs, ps, al, be, alpha, r');
    ResidualMoves(m, b, xs[k], alpha, ps[k]);
    Cancelled(Dot(rs[k], rs[k]), Quadratic(m, ps[k]), alpha);
    EnergyFalls(m, b, xs[k], alpha, ps[k], Dot(rs[k], rs[k]));
    TimesSign(alpha, Dot(rs[k], rs[k]));
    DescentGrows(m, b, d, xs, rs, ps, x', r');
  }

  lemma DescentGrows(m: Matrix, b: Vector, d: nat, xs: seq<Vector>, rs: seq<Vector>, ps: seq<Vector>,
                     x': Vector, r': Vector)
    requires Descent(m, b, d, xs, rs, ps) && |x'| == d && Orthogonal(rs + [r'], d)
    requires r' == Residual(m, b, x') && Energy(m, b, x') < Energy(m, b, xs[|xs| - 1])
    ensures Descent(m, b, d, xs + [x'], rs + [r'], ps)
  {
    hide Dot, Apply, Residual, Energy, Orthogonal, Conjugate;
  }

  lemma RunTurns(m: Matrix, b: Vector, d: nat, xs: seq<Vector>, rs: seq<Vector>, ps: seq<Vector>,
                 al: seq<real>, be: seq<real>, beta: real)
    requires Trace(m, b, d, rs, ps, al, be) && |be| + 1 == |al| && NonZero(rs) && Descent(m, b, d, xs, rs, ps)
    requires Symmetric(m, d) && Dot(rs[|al|], ps[|be|]) == 0.0
    requires beta == Dot(rs[|al|], rs[|al|]) / Dot(rs[|be|], rs[|be|])
    ensures Running(m, b, d, xs, rs, ps + [Lin(1.0, rs[|al|], beta, ps[|be|])], al, be + [beta])
  {
    hide Dot, Apply, Lin, Residual, Energy, Symmetric;
    NextDirection(m, b, d, rs, ps, al, be, beta, Lin(1.0, rs[|al|], beta, ps[|be|]));
  }

  // The loop that sums the squares of a vector.
  method SumOfSquares(r: array<real>) returns (s: real)
    ensures s == Dot(r[..], r[..])
  {
    s := 0.0;
    var i := 0;
    while i < r.Length
      invariant 0 <= i <= r.Length
      invariant s == DotTo(r[..], r[..], i)
    {
      s := s + r[i] * r[i];
      i := i + 1;
    }
  }

  // p <- r + beta * p
  method Blend(p: array<real>, r: array<real>, beta: real)
    requires p.Length == r.Length && p != r
    modifies p
    ensures p[..] == Lin(1.0, r[..], beta, old(p[..]))
  {
    ghost var goal := Lin(1.0, r[..], beta, p[..]);
    assert forall i :: 0 <= i < p.Length ==> goal[i] == Plus(r[i], beta, p[i]);
    hide Plus, Lin;
    var i := 0;
    while i < p.Length
      invariant 0 <= i <= p.Length
      invariant forall k :: 0 <= k < i ==> p[k] == goal[k]
      invariant forall k :: i <= k < p.Length ==> p[k] == old(p[k])
    {
      p[i] := Plus(r[i], beta, p[i]);
      i := i + 1;
    }
    assert p[..] == goal;
  }

  // How close the answer is: the square of the residual is below one of the two thresholds of the loop.
  ghost predicate Solved(m: Matrix, b: Vector, x: Vector, rho: real)
    requires Square(m, |x|) && |b| == |x|
  {
    var r := Residual(m, b, x);
    Dot(r, r) < 0.0000000001 || Times(rho, Dot(r, r)) <= 0.000000000001
  }

  lemma ShortDirection(m: Matrix, b: Vector, d: nat, xs: seq<Vector>, rs: seq<Vector>, ps: seq<Vector>,
                       al: seq<real>, be: seq<real>, rho: real)
    requires Running(m, b, d, xs, rs, ps, al, be) && Coercive(m, d, rho) && rho > 0.0
    requires Quadratic(m, ps[|al|]) <= 0.000000000001
    ensures Solved(m, b, xs[|al|], rho)
  {
    hide Dot, Residual, Times;
    var r, p := rs[|al|], ps[|al|];
    assert r == Residual(m, b, xs[|al|]);
    assert Dot(r, p) == Dot(r, r);
    DirectionLong(r, p);
    assert Quadratic(m, p) >= Times(rho, Dot(p, p));
    TimesMonotone(rho, Dot(r, r), Dot(p, p));
  }

  lemma TimesMonotone(a: real, x: real, y: real)
    requires a > 0.0 && x <= y
    ensures Times(a, x) <= Times(a, y)
  {
  }

  /** A run cannot make d full turns: its residuals would be d + 1 orthogonal vectors. */
  lemma TurnsBounded(m: Matrix, b: Vector, d: nat, xs: seq<Vector>, rs: seq<Vector>, ps: seq<Vector>,
                     al: seq<real>, be: seq<real>)
    requires Running(m, b, d, xs, rs, ps, al, be)
    ensures |al| < d
  {
    OrthogonalCount(rs, d);
  }

  // The loop is about to take direction `p` from `x`, whose residual is `r`.
  ghost predicate AtHead(m: Matrix, b: Vector, d: nat, xs: seq<Vector>, rs: seq<Vector>, ps: seq<Vector>,
                         al: seq<real>, be: seq<real>, x: Vector, r: Vector, p: Vector, rSq: real)
  {
    && Running(m, b, d, xs, rs, ps, al, be) && |xs| == |rs| == |ps| == |al| + 1 == |be| + 1
    && x == xs[|al|] && r == rs[|al|] && p == ps[|al|] && rSq == Dot(r, r) && rSq > 0.0
  }

  /** The body of the loop. */
  method Turn(ztz: array<real>, x: array<real>, r: array<real>, p: array<real>, rSq: real, ghost b: Vector,
              ghost rho: real,
              ghost xs: seq<Vector>, ghost rs: seq<Vector>, ghost ps: seq<Vector>, ghost al: seq<real>,
                ghost be: seq<real>)
    returns (rSqNew: real, stop: bool, ghost xs': seq<Vector>, ghost rs': seq<Vector>, ghost ps': seq<Vector>,
             ghost al': seq<real>, ghost be': seq<real>)
    requires x.Length == r.Length == p.Length == |b| && ztz.Length == |b| * |b| && rho > 0.0
    requires ztz != x && ztz != r && ztz != p && x != r && x != p && r != p
    requires Symmetric(Rows(ztz[..], |b|), |b|) && Coercive(Rows(ztz[..], |b|), |b|, rho)
    requires AtHead(Rows(ztz[..], |b|), b, |b|, xs, rs, ps, al, be, x[..], r[..], p[..], rSq)
    modifies x, r, p
    ensures stop ==>
      && Solved(Rows(ztz[..], |b|), b, x[..], rho) && Descent(Rows(ztz[..], |b|), b, |b|, xs', rs', ps')
      && x[..] == xs'[|xs'| - 1] && |xs'| <= |al| + 2
    ensures !stop ==>
      && AtHead(Rows(ztz[..], |b|), b, |b|, xs', rs', ps', al', be', x[..], r[..], p[..], rSqNew)
      && |al'| == |al| + 1
  {
    hide Dot, Lin, Apply, Rows, Symmetric, Coercive, Trace, Residual, Energy, Conjugate, Orthogonal, Solved;
    ghost var m, d := Rows(ztz[..], |b|), |b|;
    xs', rs', ps', al', be' := xs, rs, ps, al, be;
    rSqNew := rSq;
    var ap := new real[x.Length];
    var pAp := Image(ztz, p[..], ap);
    if pAp <= 0.000000000001 {
      ShortDirection(m, b, d, xs, rs, ps, al, be, rho);
      stop := true;
      return;
    }
    var alpha := rSq / pAp;
    AddScaled(x, alpha, p[..]);
    AddScaled(r, -alpha, ap[..]);
    RunSteps(m, b, d, xs, rs, ps, al, be, alpha);
    xs', rs', al' := xs + [x[..]], rs + [r[..]], al + [alpha];
    rSqNew := SumOfSquares(r);
    if rSqNew < 0.0000000001 {
      SmallResidual(m, b, d, xs', rs', ps, rho);
      stop := true;
      return;
    }
    var beta := rSqNew / rSq;
    Blend(p, r, beta);
    RunTurns(m, b, d, xs', rs', ps, al', be, beta);
    ps', be' := ps + [p[..]], be + [beta];
    stop := false;
  }

  /** `solve_conjugate_gradient` on a symmetric matrix with x m x >= rho x x. */
  method Solve(ztz: array<real>, zte: array<real>, ghost rho: real)
    returns (delta: seq<real>, ghost xs: seq<Vector>, ghost rs: seq<Vector>, ghost ps: seq<Vector>)
    requires ztz.Length == zte.Length * zte.Length && rho > 0.0
    requires Symmetric(Rows(ztz[..], zte.Length), zte.Length) && Coercive(Rows(ztz[..], zte.Length), zte.Length, rho)
    ensures |delta| == zte.Length
    ensures Solved(Rows(ztz[..], zte.Length), zte[..], delta, rho)
    ensures Descent(Rows(ztz[..], zte.Length), zte[..], zte.Length, xs, rs, ps)
    ensures delta == xs[|xs| - 1] && |xs| <= zte.Length + 1
  {
    hide Dot, Rows, Symmetric, Coercive, Running, AtHead, Descent, Solved;
    var d := zte.Length;
    ghost var m, b := Rows(ztz[..], d), zte[..];
    var x := new real[d](i => 0.0);
    var r := new real[d](i requires 0 <= i < d reads zte => zte[i]);
    var p := new real[d](i requires 0 <= i < d reads zte => zte[i]);
    assert x[..] == Zeros(d) && r[..] == b && p[..] == b;
    xs, rs, ps := [Zeros(d)], [b], [b];
    RunStarts(m, b, d);
    var rSq := SumOfSquares(r);
    if rSq < 0.000000000001 {
      StartSolves(m, b, d, rho);
      return x[..], xs, rs, ps;
    }
    HeadStarts(m, b, d);
    ghost var al: seq<real>, be: seq<real> := [], [];
    var k := 0;
    var stop := false;
    while k < d && !stop
      invariant 0 <= k <= d && ztz[..] == old(ztz[..]) && zte[..] == b
      invariant stop ==> Solved(m, b, x[..], rho) && Descent(m, b, d, xs, rs, ps)
      invariant stop ==> 0 < |xs| <= d + 1 && x[..] == xs[|xs| - 1]
      invariant !stop ==> AtHead(m, b, d, xs, rs, ps, al, be, x[..], r[..], p[..], rSq) && |al| == k
      decreases d - k, !stop
    {
      rSq, stop, xs, rs, ps, al, be := Turn(ztz, x, r, p, rSq, b, rho, xs, rs, ps, al, be);
      DescentNonEmpty(m, b, d, xs, rs, ps);
      if !stop {
        k := k + 1;
      }
    }
    if !stop {
      HeadBounded(m, b, d, xs, rs, ps, al, be, x[..], r[..], p[..], rSq);
      assert false;
    }
    delta := x[..];
  }

  lemma HeadStarts(m: Matrix, b: Vector, d: nat)
    requires Square(m, d) && |b| == d && Dot(b, b) > 0.0
    ensures AtHead(m, b, d, [Zeros(d)], [b], [b], [], [], Zeros(d), b, b, Dot(b, b))
  {
    hide Dot;
    RunStarts(m, b, d);
  }

  lemma HeadBounded(m: Matrix, b: Vector, d: nat, xs: seq<Vector>, rs: seq<Vector>, ps: seq<Vector>,
                    al: seq<real>, be: seq<real>, x: Vector, r: Vector, p: Vector, rSq: real)
    requires AtHead(m, b, d, xs, rs, ps, al, be, x, r, p, rSq)
    ensures |al| < d
  {
    TurnsBounded(m, b, d, xs, rs, ps, al, be);
  }

  lemma DescentNonEmpty(m: Matrix, b: Vector, d: nat, xs: seq<Vector>, rs: seq<Vector>, ps: seq<Vector>)
    ensures Descent(m, b, d, xs, rs, ps) ==> 0 < |xs|
  {
  }

  lemma StartSolves(m: Matrix, b: Vector, d: nat, rho: real)
    requires Square(m, d) && |b| == d && Dot(b, b) < 0.000000000001
    ensures Solved(m, b, Zeros(d), rho)
  {
    ApplyZeros(m, d);
    assert Residual(m, b, Zeros(d)) == b;
  }

  lemma SmallResidual(m: Matrix, b: Vector, d: nat, xs: seq<Vector>, rs: seq<Vector>, ps: seq<Vector>, rho: real)
    requires Descent(m, b, d, xs, rs, ps) && Dot(rs[|rs| - 1], rs[|rs| - 1]) < 0.0000000001
    ensures Solved(m, b, xs[|xs| - 1], rho)
  {
  }
}
