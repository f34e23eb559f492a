/** Vectors and square matrices over the reals, as far as the online least-squares code needs them.  A
    matrix is the sequence of its rows. */
module LinearAlgebra {

  type Vector = seq<real>
  type Matrix = seq<Vector>

  // ---- Vectors ----------------------------------------------------------------------------------

  // The sum of the first `n` products.
  function DotTo(a: Vector, b: Vector, n: nat): real
    requires n <= |a| && n <= |b|
  {
    if n == 0 then 0.0 else DotTo(a, b, n - 1) + a[n - 1] * b[n - 1]
  }

  function Dot(a: Vector, b: Vector): real
    requires |a| == |b|
  {
    DotTo(a, b, |a|)
  }

  // s * a + t * b
  function Lin(s: real, a: Vector, t: real, b: Vector): (r: Vector)
    requires |a| == |b|
    ensures |r| == |a|
  {
    seq(|a|, i requires 0 <= i < |a| => s * a[i] + t * b[i])
  }

  function Zeros(d: nat): (r: Vector)
    ensures |r| == d
  {
    seq(d, i => 0.0)
  }

  lemma {:induction false} DotToSymmetric(a: Vector, b: Vector, n: nat)
    requires n <= |a| && n <= |b|
    ensures DotTo(a, b, n) == DotTo(b, a, n)
  {
    if n > 0 { DotToSymmetric(a, b, n - 1); }
  }

  lemma DotSymmetric(a: Vector, b: Vector)
    requires |a| == |b|
    ensures Dot(a, b) == Dot(b, a)
  {
    DotToSymmetric(a, b, |a|);
  }

  lemma {:induction false} DotToLin(c: Vector, s: real, a: Vector, t: real, b: Vector, n: nat)
    requires |a| == |b| == |c| && n <= |a|
    ensures DotTo(c, Lin(s, a, t, b), n) == s * DotTo(c, a, n) + t * DotTo(c, b, n)
  {
    if n > 0 {
      DotToLin(c, s, a, t, b, n - 1);
      var u, v, w := c[n - 1], a[n - 1], b[n - 1];
      assert u * (s * v + t * w) == s * (u * v) + t * (u * w);
      assert s * (DotTo(c, a, n - 1) + u * v) == s * DotTo(c, a, n - 1) + s * (u * v);
      assert t * (DotTo(c, b, n - 1) + u * w) == t * DotTo(c, b, n - 1) + t * (u * w);
    }
  }

  /** The product is linear in its second argument. */
  lemma DotLin(c: Vector, s: real, a: Vector, t: real, b: Vector)
    requires |a| == |b| == |c|
    ensures Dot(c, Lin(s, a, t, b)) == s * Dot(c, a) + t * Dot(c, b)
  {
    DotToLin(c, s, a, t, b, |c|);
  }

  /** The product is linear in its first argument. */
  lemma LinDot(s: real, a: Vector, t: real, b: Vector, c: Vector)
    requires |a| == |b| == |c|
    ensures Dot(Lin(s, a, t, b), c) == s * Dot(a, c) + t * Dot(b, c)
  {
    DotSymmetric(Lin(s, a, t, b), c);
    DotSymmetric(a, c);
    DotSymmetric(b, c);
    DotLin(c, s, a, t, b);
  }

  lemma {:induction false} DotToZeros(a: Vector, n: nat)
    requires n <= |a|
    ensures DotTo(a, Zeros(|a|), n) == 0.0
  {
    if n > 0 { DotToZeros(a, n - 1); }
  }

  lemma {:induction false} DotToSquare(a: Vector, n: nat)
    requires n <= |a|
    ensures DotTo(a, a, n) >= 0.0
    ensures DotTo(a, a, n) == 0.0 ==> forall i :: 0 <= i < n ==> a[i] == 0.0
  {
    if n > 0 {
      DotToSquare(a, n - 1);
      SquareAdds(DotTo(a, a, n - 1), a[n - 1]);
    }
  }

  function Times(x: real, y: real): real {
    x * y
  }

  // `sqrt` is the square root, on all it is meant for.
  ghost predicate IsRoot(sqrt: real -> real) {
    forall v: real {:trigger sqrt(v)} :: v >= 0.0 ==> sqrt(v) >= 0.0 && Times(sqrt(v), sqrt(v)) == v
  }

  lemma TimesSign(x: real, y: real)
    requires (x > 0.0 && y > 0.0) || (x < 0.0 && y < 0.0)
    ensures Times(x, y) > 0.0
  {
  }

  lemma SquareSign(x: real)
    ensures Times(x, x) >= 0.0 && (x != 0.0 ==> Times(x, x) > 0.0)
  {
    assert x == 0.0 ==> Times(x, x) == 0.0;
    hide Times;
    if x != 0.0 { TimesSign(x, x); }
  }

  lemma SquareAdds(s: real, x: real)
    requires s >= 0.0
    ensures s + Times(x, x) >= 0.0 && (s != 0.0 || x != 0.0 ==> s + Times(x, x) > 0.0)
  {
    SquareSign(x);
    hide Times;
  }

  lemma Exchange(a: real, b: real, c: real)
    ensures a * b * c == a * c * b
  {
  }

  /** A vector's square is never negative, and zero for the zero vector alone. */
  lemma DotSquare(a: Vector)
    ensures Dot(a, a) >= 0.0
    ensures Dot(a, a) == 0.0 <==> a == Zeros(|a|)
  {
    DotToSquare(a, |a|);
    if a == Zeros(|a|) { DotToZeros(a, |a|); }
  }

  // ---- Matrices ---------------------------------------------------------------------------------

  predicate Square(m: Matrix, d: nat) {
    |m| == d && forall i :: 0 <= i < d ==> |m[i]| == d
  }

  predicate Symmetric(m: Matrix, d: nat)
    requires Square(m, d)
  {
    forall i, j :: 0 <= i < d && 0 <= j < d ==> m[i][j] == m[j][i]
  }

  function Apply(m: Matrix, x: Vector): (r: Vector)
    requires Square(m, |x|)
    ensures |r| == |x|
  {
    seq(|x|, i requires 0 <= i < |x| => Dot(m[i], x))
  }

  // s * identity
  function Diagonal(d: nat, s: real): (m: Matrix)
    ensures Square(m, d)
  {
    seq(d, i => seq(d, j => if i == j then s else 0.0))
  }

  // s * m + t * u u^T
  function RankOne(s: real, m: Matrix, t: real, u: Vector): (r: Matrix)
    requires Square(m, |u|)
    ensures Square(r, |u|)
  {
    seq(|u|, i requires 0 <= i < |u| => RankOneRow(s, m, t, u, i))
  }

  function RankOneRow(s: real, m: Matrix, t: real, u: Vector, i: nat): (r: Vector)
    requires Square(m, |u|) && i < |u|
    ensures |r| == |u|
  {
    Lin(s, m[i], t * u[i], u)
  }

  lemma RankOneSymmetric(s: real, m: Matrix, t: real, u: Vector)
    requires Square(m, |u|) && Symmetric(m, |u|)
    ensures Symmetric(RankOne(s, m, t, u), |u|)
  {
  }

  lemma RankOneApply(s: real, m: Matrix, t: real, u: Vector, x: Vector)
    requires Square(m, |u|) && |x| == |u|
    ensures Apply(RankOne(s, m, t, u), x) == Lin(s, Apply(m, x), t * Dot(u, x), u)
  {
    forall i | 0 <= i < |u|
      ensures Apply(RankOne(s, m, t, u), x)[i] == Lin(s, Apply(m, x), t * Dot(u, x), u)[i]
    {
      LinDot(s, m[i], t * u[i], u, x);
      Exchange(t, u[i], Dot(u, x));
    }
  }

  lemma ApplyLin(m: Matrix, s: real, a: Vector, t: real, b: Vector)
    requires |a| == |b| && Square(m, |a|)
    ensures Apply(m, Lin(s, a, t, b)) == Lin(s, Apply(m, a), t, Apply(m, b))
  {
    forall i | 0 <= i < |a| ensures Apply(m, Lin(s, a, t, b))[i] == Lin(s, Apply(m, a), t, Apply(m, b))[i] {
      DotLin(m[i], s, a, t, b);
    }
  }

  lemma {:induction false} DotToUnit(a: Vector, d: nat, s: real, i: nat, n: nat)
    requires |a| == d && i < d && n <= d
    ensures DotTo(Diagonal(d, s)[i], a, n) == if i < n then s * a[i] else 0.0
  {
    if n > 0 { DotToUnit(a, d, s, i, n - 1); }
  }

  lemma DiagonalApply(d: nat, s: real, x: Vector)
    requires |x| == d
    ensures Apply(Diagonal(d, s), x) == Lin(s, x, 0.0, x)
  {
    forall i | 0 <= i < d ensures Apply(Diagonal(d, s), x)[i] == Lin(s, x, 0.0, x)[i] {
      DotToUnit(x, d, s, i, d);
    }
  }

  // The combination of the first `n` rows of `m` with the coefficients `y`.
  function Mixed(m: Matrix, y: Vector, n: nat): (r: Vector)
    requires Square(m, |y|) && n <= |y|
    ensures |r| == |y|
  {
    if n == 0 then Zeros(|y|) else Lin(1.0, Mixed(m, y, n - 1), y[n - 1], m[n - 1])
  }

  lemma {:induction false} MixedDot(m: Matrix, x: Vector, y: Vector, n: nat)
    requires Square(m, |y|) && |x| == |y| && n <= |y|
    ensures DotTo(Apply(m, x), y, n) == Dot(Mixed(m, y, n), x)
  {
    if n == 0 {
      DotToZeros(x, |x|);
      DotSymmetric(Zeros(|x|), x);
    } else {
      MixedDot(m, x, y, n - 1);
      LinDot(1.0, Mixed(m, y, n - 1), y[n - 1], m[n - 1], x);
    }
  }

  lemma {:induction false} MixedEntry(m: Matrix, y: Vector, n: nat, j: nat)
    requires Square(m, |y|) && Symmetric(m, |y|) && n <= |y| && j < |y|
    ensures Mixed(m, y, n)[j] == DotTo(m[j], y, n)
  {
    if n > 0 {
      MixedEntry(m, y, n - 1, j);
      assert m[n - 1][j] == m[j][n - 1];
    }
  }

  /** A symmetric matrix may be moved from one side of the product to the other. */
  lemma SymmetricMoves(m: Matrix, x: Vector, y: Vector)
    requires |x| == |y| && Square(m, |x|) && Symmetric(m, |x|)
    ensures Dot(Apply(m, x), y) == Dot(x, Apply(m, y))
  {
    MixedDot(m, x, y, |y|);
    forall j | 0 <= j < |y| ensures Mixed(m, y, |y|)[j] == Apply(m, y)[j] {
      MixedEntry(m, y, |y|, j);
    }
    assert Mixed(m, y, |y|) == Apply(m, y);
    DotSymmetric(Apply(m, y), x);
  }

  // ---- Inverses and definiteness ----------------------------------------------------------------

  // `b` undoes `a` and `a` undoes `b`, on every vector.
  ghost predicate Inverse(a: Matrix, b: Matrix, d: nat)
    requires Square(a, d) && Square(b, d)
  {
    && (forall x: Vector {:trigger Apply(a, Apply(b, x))} :: |x| == d ==> Apply(a, Apply(b, x)) == x)
    && (forall x: Vector {:trigger Apply(b, Apply(a, x))} :: |x| == d ==> Apply(b, Apply(a, x)) == x)
  }

  function Quadratic(m: Matrix, x: Vector): real
    requires Square(m, |x|)
  {
    Dot(x, Apply(m, x))
  }

  ghost predicate PositiveDefinite(m: Matrix, d: nat)
    requires Square(m, d)
  {
    forall x: Vector {:trigger Quadratic(m, x)} :: |x| == d && x != Zeros(d) ==> Quadratic(m, x) > 0.0
  }

  lemma NonNegative(m: Matrix, x: Vector)
    requires Square(m, |x|) && PositiveDefinite(m, |x|)
    ensures Quadratic(m, x) >= 0.0
  {
    if x == Zeros(|x|) {
      DotToZeros(Apply(m, x), |x|);
      DotSymmetric(x, Apply(m, x));
    }
  }

  lemma ApplyZeros(m: Matrix, d: nat)
    requires Square(m, d)
    ensures Apply(m, Zeros(d)) == Zeros(d)
  {
    forall i | 0 <= i < d ensures Apply(m, Zeros(d))[i] == 0.0 {
      DotToZeros(m[i], d);
    }
  }

  /** The inverse of a positive definite matrix is positive definite. */
  lemma InverseDefinite(a: Matrix, b: Matrix, d: nat)
    requires Square(a, d) && Square(b, d)
    requires Inverse(a, b, d) && PositiveDefinite(a, d)
    ensures PositiveDefinite(b, d)
  {
    forall y: Vector | |y| == d && y != Zeros(d) ensures Quadratic(b, y) > 0.0 {
      var z := Apply(b, y);
      assert Apply(a, z) == y;
      ApplyZeros(a, d);
      assert z != Zeros(d);
      assert Quadratic(a, z) > 0.0;
      DotSymmetric(y, z);
    }
  }

  /** A matrix has only one inverse. */
  lemma InverseUnique(a: Matrix, b: Matrix, b': Matrix, d: nat)
    requires Square(a, d) && Square(b, d) && Square(b', d)
    requires Inverse(a, b, d) && Inverse(a, b', d)
    ensures b == b'
  {
    hide Inverse, Apply;
    forall i | 0 <= i < d ensures b[i] == b'[i] {
      forall j | 0 <= j < d ensures b[i][j] == b'[i][j] {
        InverseApplyUnique(a, b, b', Diagonal(d, 1.0)[j]);
        ApplyUnit(b, d, i, j);
        ApplyUnit(b', d, i, j);
      }
    }
  }

  lemma InverseApplyUnique(a: Matrix, b: Matrix, b': Matrix, x: Vector)
    requires Square(a, |x|) && Square(b, |x|) && Square(b', |x|)
    requires Inverse(a, b, |x|) && Inverse(a, b', |x|)
    ensures Apply(b, x) == Apply(b', x)
  {
    assert Apply(b, Apply(a, Apply(b', x))) == Apply(b', x);
  }

  // Column `j` of a matrix is its image of the `j`th unit vector.
  lemma ApplyUnit(m: Matrix, d: nat, i: nat, j: nat)
    requires Square(m, d) && i < d && j < d
    ensures Apply(m, Diagonal(d, 1.0)[j])[i] == m[i][j]
  {
    var e := Diagonal(d, 1.0)[j];
    DotSymmetric(m[i], e);
    DotToUnit(m[i], d, 1.0, j, d);
  }

  /** For symmetric matrices one side of the inverse is enough. */
  lemma RightInverseSuffices(a: Matrix, b: Matrix, d: nat, x: Vector)
    requires Square(a, d) && Square(b, d) && Symmetric(a, d) && Symmetric(b, d) && |x| == d
    requires forall y: Vector {:trigger Apply(a, Apply(b, y))} :: |y| == d ==> Apply(a, Apply(b, y)) == y
    ensures Apply(b, Apply(a, x)) == x
  {
    var z := Apply(b, Apply(a, x));
    forall i | 0 <= i < d ensures z[i] == x[i] {
      var e := Diagonal(d, 1.0)[i];
      SymmetricMoves(b, Apply(a, x), e);
      SymmetricMoves(a, x, Apply(b, e));
      DotUnit(z, d, i);
      DotUnit(x, d, i);
    }
  }

  lemma DotUnit(x: Vector, d: nat, i: nat)
    requires |x| == d && i < d
    ensures Dot(x, Diagonal(d, 1.0)[i]) == x[i]
  {
    DotSymmetric(x, Diagonal(d, 1.0)[i]);
    DotToUnit(x, d, 1.0, i, d);
  }

  /** Adding a weighted square keeps a matrix positive definite. */
  lemma RankOneDefinite(s: real, m: Matrix, t: real, u: Vector, d: nat)
    requires |u| == d && Square(m, d) && PositiveDefinite(m, d) && s > 0.0 && t >= 0.0
    ensures PositiveDefinite(RankOne(s, m, t, u), d)
  {
    forall x: Vector | |x| == d && x != Zeros(d) ensures Quadratic(RankOne(s, m, t, u), x) > 0.0 {
      RankOneQuadratic(s, m, t, u, x);
      TimesSign(s, Quadratic(m, x));
      SquareSign(Dot(u, x));
      TimesNonNegative(t, Times(Dot(u, x), Dot(u, x)));
    }
  }

  lemma TimesNonNegative(x: real, y: real)
    requires x >= 0.0 && y >= 0.0
    ensures Times(x, y) >= 0.0
  {
  }

  lemma RankOneQuadratic(s: real, m: Matrix, t: real, u: Vector, x: Vector)
    requires |x| == |u| && Square(m, |u|)
    ensures Quadratic(RankOne(s, m, t, u), x) == Times(s, Quadratic(m, x)) + Times(t, Times(Dot(u, x), Dot(u, x)))
  {
    hide RankOne, Apply, Dot, Lin;
    RankOneApply(s, m, t, u, x);
    DotLin(x, s, Apply(m, x), t * Dot(u, x), u);
    DotSymmetric(x, u);
  }

  // What x m x - 2 b . x becomes one step further on.
  lemma QuadraticShift(m: Matrix, b: Vector, x: Vector, h: Vector)
    requires Square(m, |x|) && Symmetric(m, |x|) && |b| == |h| == |x|
    ensures var y := Lin(1.0, x, 1.0, h);
      Quadratic(m, y) - 2.0 * Dot(b, y) ==
        (Quadratic(m, x) - 2.0 * Dot(b, x)) + Quadratic(m, h) - 2.0 * Dot(Lin(1.0, b, -1.0, Apply(m, x)), h)
  {
    hide Apply, Dot, Lin, Symmetric;
    var y := Lin(1.0, x, 1.0, h);
    ApplyLin(m, 1.0, x, 1.0, h);
    LinDot(1.0, x, 1.0, h, Lin(1.0, Apply(m, x), 1.0, Apply(m, h)));
    DotLin(x, 1.0, Apply(m, x), 1.0, Apply(m, h));
    DotLin(h, 1.0, Apply(m, x), 1.0, Apply(m, h));
    SymmetricMoves(m, x, h);
    DotSymmetric(Apply(m, x), h);
    DotLin(b, 1.0, x, 1.0, h);
    LinDot(1.0, b, -1.0, Apply(m, x), h);
  }

  lemma DifferenceBack(x: Vector, y: Vector)
    requires |x| == |y|
    ensures Lin(1.0, x, 1.0, Lin(1.0, y, -1.0, x)) == y
  {
  }

  lemma DiagonalDefinite(d: nat, s: real)
    requires s > 0.0
    ensures PositiveDefinite(Diagonal(d, s), d) && Symmetric(Diagonal(d, s), d)
  {
    forall x: Vector | |x| == d && x != Zeros(d) ensures Quadratic(Diagonal(d, s), x) > 0.0 {
      DiagonalApply(d, s, x);
      DotLin(x, s, x, 0.0, x);
      DotSquare(x);
      TimesSign(s, Dot(x, x));
    }
  }

  lemma DiagonalInverse(d: nat, s: real, t: real)
    requires s * t == 1.0
    ensures Inverse(Diagonal(d, s), Diagonal(d, t), d)
  {
    forall x: Vector | |x| == d
      ensures Apply(Diagonal(d, s), Apply(Diagonal(d, t), x)) == x
      ensures Apply(Diagonal(d, t), Apply(Diagonal(d, s), x)) == x
    {
      DiagonalsCancel(d, s, t, x);
      DiagonalsCancel(d, t, s, x);
    }
  }

  lemma DiagonalsCancel(d: nat, s: real, t: real, x: Vector)
    requires s * t == 1.0 && |x| == d
    ensures Apply(Diagonal(d, s), Apply(Diagonal(d, t), x)) == x
  {
    var y := Apply(Diagonal(d, t), x);
    DiagonalApply(d, t, x);
    DiagonalApply(d, s, y);
    hide Apply, Diagonal;
    forall i | 0 <= i < d ensures Lin(s, y, 0.0, y)[i] == x[i] {
      assert y[i] == t * x[i] + 0.0 * x[i];
      assert s * (t * x[i]) == s * t * x[i];
    }
  }
}
