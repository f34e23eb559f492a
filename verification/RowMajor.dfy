/** Square matrices kept row by row in one flat buffer, and the two numeric kernels of
    `crates/contextra-adapt/src/bandit.rs` that read and rewrite them. */
module RowMajor {
  import opened Basics
  import opened LinearAlgebra

  function Row(s: seq<real>, d: nat, i: nat): (r: Vector)
    requires |s| == d * d && i < d
    ensures |r| == d
  {
    RowBounds(d, i);
    s[i * d..i * d + d]
  }

  function Rows(s: seq<real>, d: nat): (m: Matrix)
    requires |s| == d * d
    ensures Square(m, d)
  {
    seq(d, i requires 0 <= i < d => Row(s, d, i))
  }

  lemma RowBounds(d: nat, i: nat)
    requires i < d
    ensures 0 <= i * d <= i * d + d <= d * d
  {
    assert i * d + d == (i + 1) * d;
    assert (i + 1) * d <= d * d by { MulMonotone(i + 1, d, d); }
  }

  lemma RowAt(s: seq<real>, d: nat, k: nat)
    requires |s| == d * d && k < d && 0 <= k * d <= k * d + d <= d * d
    ensures Rows(s, d)[k] == s[k * d..k * d + d]
  {
  }

  lemma MulMonotone(a: nat, b: nat, c: nat)
    requires a <= b
    ensures a * c <= b * c
  {
  }

  lemma RowsApart(d: nat, i: nat, k: nat)
    requires i < d && k < d && i != k
    ensures i * d + d <= k * d || k * d + d <= i * d
  {
    if i < k {
      assert i * d + d == (i + 1) * d;
      MulMonotone(i + 1, k, d);
    } else {
      assert k * d + d == (k + 1) * d;
      MulMonotone(k + 1, i, d);
    }
  }

  /** Rewriting one row of the buffer leaves the other rows of the matrix alone. */
  lemma OneRowChanged(s: seq<real>, s': seq<real>, d: nat, i: nat, row: Vector)
    requires |s| == |s'| == d * d && i < d && |row| == d
    requires i * d + d <= d * d
    requires s'[i * d..i * d + d] == row
    requires s'[..i * d] == s[..i * d] && s'[i * d + d..] == s[i * d + d..]
    ensures Rows(s', d) == Rows(s, d)[i := row]
  {
    hide Rows, Row;
    forall k | 0 <= k < d ensures Rows(s', d)[k] == (if k == i then row else Rows(s, d)[k]) {
      RowBounds(d, k);
      RowAt(s, d, k);
      RowAt(s', d, k);
      if k != i {
        RowsApart(d, i, k);
        SliceKept(s, s', i * d, i * d + d, k * d, k * d + d);
      }
    }
  }

  lemma SliceKept(s: seq<real>, s': seq<real>, lo: nat, hi: nat, a: nat, b: nat)
    requires |s| == |s'| && lo <= hi <= |s| && a <= b <= |s|
    requires s'[..lo] == s[..lo] && s'[hi..] == s[hi..]
    requires b <= lo || hi <= a
    ensures s'[a..b] == s[a..b]
  {
    forall k | a <= k < b ensures s'[k] == s[k] {
      if b <= lo {
        assert s'[..lo][k] == s[..lo][k];
      } else {
        assert s'[hi..][k - hi] == s[hi..][k - hi];
      }
    }
  }

  lemma DotToFour(a: seq<real>, b: seq<real>, i: nat)
    requires i + 4 <= |a| && i + 4 <= |b|
    ensures DotTo(a, b, i + 4) ==
      DotTo(a, b, i) + a[i] * b[i] + a[i + 1] * b[i + 1] + a[i + 2] * b[i + 2] + a[i + 3] * b[i + 3]
  {
    assert DotTo(a, b, i + 1) == DotTo(a, b, i) + a[i] * b[i];
    assert DotTo(a, b, i + 2) == DotTo(a, b, i + 1) + a[i + 1] * b[i + 1];
    assert DotTo(a, b, i + 3) == DotTo(a, b, i + 2) + a[i + 2] * b[i + 2];
    assert DotTo(a, b, i + 4) == DotTo(a, b, i + 3) + a[i + 3] * b[i + 3];
  }

  lemma DotToNone(a: seq<real>, b: seq<real>)
    ensures DotTo(a, b, 0) == 0.0
  {
  }

  lemma DotToNext(a: seq<real>, b: seq<real>, i: nat)
    requires i < |a| && i < |b|
    ensures DotTo(a, b, i + 1) == DotTo(a, b, i) + a[i] * b[i]
  {
  }

  // One turn of the unrolled loop.
  lemma DotToSixteen(a: seq<real>, b: seq<real>, i: nat, t0: real, t1: real, t2: real, t3: real,
                     s0: real, s1: real, s2: real, s3: real)
    requires i + 16 <= |a| && i + 16 <= |b|
    requires s0 == t0 + a[i] * b[i] + a[i + 4] * b[i + 4] + a[i + 8] * b[i + 8] + a[i + 12] * b[i + 12]
    requires s1 == t1 + a[i + 1] * b[i + 1] + a[i + 5] * b[i + 5] + a[i + 9] * b[i + 9] + a[i + 13] * b[i + 13]
    requires s2 == t2 + a[i + 2] * b[i + 2] + a[i + 6] * b[i + 6] + a[i + 10] * b[i + 10] + a[i + 14] * b[i + 14]
    requires s3 == t3 + a[i + 3] * b[i + 3] + a[i + 7] * b[i + 7] + a[i + 11] * b[i + 11] + a[i + 15] * b[i + 15]
    ensures s0 + s1 + s2 + s3 - (t0 + t1 + t2 + t3) == DotTo(a, b, i + 16) - DotTo(a, b, i)
  {
    hide DotTo;
    DotToFour(a, b, i);
    DotToFour(a, b, i + 4);
    DotToFour(a, b, i + 8);
    DotToFour(a, b, i + 12);
  }

  /** `dot_product_f32`: four accumulators, sixteen products a turn, then four, then one. */
  method DotProduct(a: seq<real>, b: seq<real>) returns (s: real)
    ensures s == DotTo(a, b, Least(|a|, |b|))
    ensures |a| == |b| ==> s == Dot(a, b)
  {
    hide DotTo;
    DotToNone(a, b);
    var len := Least(|a|, |b|);
    var sum0, sum1, sum2, sum3 := 0.0, 0.0, 0.0, 0.0;
    var i := 0;
    while i + 16 <= len
      invariant 0 <= i <= len
      invariant sum0 + sum1 + sum2 + sum3 == DotTo(a, b, i)
    {
      ghost var t0, t1, t2, t3 := sum0, sum1, sum2, sum3;
      sum0 := sum0 + a[i] * b[i];
      sum1 := sum1 + a[i + 1] * b[i + 1];
      sum2 := sum2 + a[i + 2] * b[i + 2];
      sum3 := sum3 + a[i + 3] * b[i + 3];

      sum0 := sum0 + a[i + 4] * b[i + 4];
      sum1 := sum1 + a[i + 5] * b[i + 5];
      sum2 := sum2 + a[i + 6] * b[i + 6];
      sum3 := sum3 + a[i + 7] * b[i + 7];

      sum0 := sum0 + a[i + 8] * b[i + 8];
      sum1 := sum1 + a[i + 9] * b[i + 9];
      sum2 := sum2 + a[i + 10] * b[i + 10];
      sum3 := sum3 + a[i + 11] * b[i + 11];

      sum0 := sum0 + a[i + 12] * b[i + 12];
      sum1 := sum1 + a[i + 13] * b[i + 13];
      sum2 := sum2 + a[i + 14] * b[i + 14];
      sum3 := sum3 + a[i + 15] * b[i + 15];

      DotToSixteen(a, b, i, t0, t1, t2, t3, sum0, sum1, sum2, sum3);
      i := i + 16;
    }
    while i + 4 <= len
      invariant 0 <= i <= len
      invariant sum0 + sum1 + sum2 + sum3 == DotTo(a, b, i)
    {
      DotToFour(a, b, i);
      sum0 := sum0 + a[i] * b[i];
      sum1 := sum1 + a[i + 1] * b[i + 1];
      sum2 := sum2 + a[i + 2] * b[i + 2];
      sum3 := sum3 + a[i + 3] * b[i + 3];
      i := i + 4;
    }
    while i < len
      invariant 0 <= i <= len
      invariant sum0 + sum1 + sum2 + sum3 == DotTo(a, b, i)
    {
      DotToNext(a, b, i);
      sum0 := sum0 + a[i] * b[i];
      i := i + 1;
    }
    s := (sum0 + sum1) + (sum2 + sum3);
  }

  // A cell after the fused update.
  function Fused(scaleRow: real, cell: real, scaleV: real, x: real): real {
    scaleRow * cell - scaleV * x
  }

  // Four of the sixteen cells one turn of the unrolled loop rewrites.
  method FusedFour(m: array<real>, at: nat, v: seq<real>, i: nat, scaleRow: real, scaleV: real)
    requires at + 4 <= m.Length && i + 4 <= |v|
    modifies m
    ensures forall k :: at <= k < at + 4 ==> m[k] == Fused(scaleRow, old(m[k]), scaleV, v[k - at + i])
    ensures forall k :: 0 <= k < m.Length && !(at <= k < at + 4) ==> m[k] == old(m[k])
  {
    hide Fused;
    m[at] := Fused(scaleRow, m[at], scaleV, v[i]);
    m[at + 1] := Fused(scaleRow, m[at + 1], scaleV, v[i + 1]);
    m[at + 2] := Fused(scaleRow, m[at + 2], scaleV, v[i + 2]);
    m[at + 3] := Fused(scaleRow, m[at + 3], scaleV, v[i + 3]);
  }

  /** `fused_row_update` on the row `m[lo..hi]`: row[j] = scaleRow * row[j] - scaleV * v[j]. */
  method FusedRowUpdate(m: array<real>, lo: nat, hi: nat, v: seq<real>, scaleRow: real, scaleV: real)
    requires lo <= hi <= m.Length
    modifies m
    ensures forall k :: lo <= k < lo + Least(hi - lo, |v|) ==> m[k] == Fused(scaleRow, old(m[k]), scaleV, v[k - lo])
    ensures forall k :: 0 <= k < m.Length && !(lo <= k < lo + Least(hi - lo, |v|)) ==> m[k] == old(m[k])
  {
    hide Fused;
    var len := Least(hi - lo, |v|);
    var i := 0;
    while i + 16 <= len
      invariant 0 <= i <= len
      invariant forall k :: lo <= k < lo + i ==> m[k] == Fused(scaleRow, old(m[k]), scaleV, v[k - lo])
      invariant forall k :: 0 <= k < m.Length && !(lo <= k < lo + i) ==> m[k] == old(m[k])
    {
      FusedFour(m, lo + i, v, i, scaleRow, scaleV);
      FusedFour(m, lo + i + 4, v, i + 4, scaleRow, scaleV);
      FusedFour(m, lo + i + 8, v, i + 8, scaleRow, scaleV);
      FusedFour(m, lo + i + 12, v, i + 12, scaleRow, scaleV);
      i := i + 16;
    }
    while i < len
      invariant 0 <= i <= len
      invariant forall k :: lo <= k < lo + i ==> m[k] == Fused(scaleRow, old(m[k]), scaleV, v[k - lo])
      invariant forall k :: 0 <= k < m.Length && !(lo <= k < lo + i) ==> m[k] == old(m[k])
    {
      m[lo + i] := Fused(scaleRow, m[lo + i], scaleV, v[i]);
      i := i + 1;
    }
  }

  // Rows below `i` are those of s * identity, the others are zero.
  ghost predicate PartlyDiagonal(m: Matrix, d: nat, s: real, i: nat) {
    && Square(m, d)
    && (forall r :: 0 <= r < d && r < i ==> m[r] == Diagonal(d, s)[r])
    && (forall r :: i <= r < d ==> m[r] == Zeros(d))
  }

  lemma DiagonalStep(buffer: seq<real>, d: nat, s: real, i: nat)
    requires |buffer| == d * d && i < d && PartlyDiagonal(Rows(buffer, d), d, s, i)
    ensures 0 <= i * d + i < d * d
    ensures PartlyDiagonal(Rows(buffer[i * d + i := s], d), d, s, i + 1)
  {
    RowBounds(d, i);
    var buffer' := buffer[i * d + i := s];
    var row := Diagonal(d, s)[i];
    var lo := i * d;
    forall j | 0 <= j < d ensures buffer'[lo..lo + d][j] == row[j] {
      assert Rows(buffer, d)[i][j] == buffer[lo + j];
    }
    assert buffer'[lo..lo + d] == row;
    OneRowChanged(buffer, buffer', d, i, row);
  }

  lemma ZeroBuffer(buffer: seq<real>, d: nat, s: real)
    requires |buffer| == d * d && forall k :: 0 <= k < |buffer| ==> buffer[k] == 0.0
    ensures PartlyDiagonal(Rows(buffer, d), d, s, 0)
  {
    forall r | 0 <= r < d ensures Rows(buffer, d)[r] == Zeros(d) {
      RowBounds(d, r);
    }
  }

  /** The loop that writes `s` on the diagonal of a zeroed buffer. */
  method FillDiagonal(m: array<real>, d: nat, s: real)
    requires m.Length == d * d && forall k :: 0 <= k < m.Length ==> m[k] == 0.0
    modifies m
    ensures Rows(m[..], d) == Diagonal(d, s)
  {
    ZeroBuffer(m[..], d, s);
    var i := 0;
    while i < d
      invariant 0 <= i <= d
      invariant PartlyDiagonal(Rows(m[..], d), d, s, i)
    {
      DiagonalStep(m[..], d, s, i);
      ghost var next := m[..][i * d + i := s];
      m[i * d + i] := s;
      assert m[..] == next;
      i := i + 1;
    }
  }

  ghost predicate ScaledAll(m: seq<real>, m': seq<real>, s: real) {
    |m'| == |m| && forall k :: 0 <= k < |m| ==> m'[k] == m[k] * s
  }

  method Scale(m: array<real>, s: real)
    modifies m
    ensures ScaledAll(old(m[..]), m[..], s)
  {
    var k := 0;
    while k < m.Length
      invariant 0 <= k <= m.Length
      invariant forall i :: 0 <= i < k ==> m[i] == old(m[i]) * s
      invariant forall i :: k <= i < m.Length ==> m[i] == old(m[i])
    {
      m[k] := m[k] * s;
      k := k + 1;
    }
  }

  // The matrix after rows 0..i have been updated.
  ghost predicate PartlyUpdated(m: Matrix, inv: Matrix, inv': Matrix, d: nat, i: nat) {
    && Square(m, d) && Square(inv, d) && Square(inv', d)
    && (forall r :: 0 <= r < d && r < i ==> m[r] == inv'[r])
    && (forall r :: i <= r < d ==> m[r] == inv[r])
  }

  lemma PartlyStart(m: Matrix, m': Matrix, d: nat)
    requires Square(m, d) && Square(m', d)
    ensures PartlyUpdated(m, m, m', d, 0)
  {
  }

  lemma PartlyEnd(m: Matrix, inv: Matrix, inv': Matrix, d: nat)
    requires PartlyUpdated(m, inv, inv', d, d)
    ensures m == inv'
  {
  }

  // Rewriting row `i` of the buffer in place.
  lemma UpdateStep(s: seq<real>, s': seq<real>, d: nat, i: nat, inv: Matrix, inv': Matrix)
    requires |s| == |s'| == d * d && i < d
    requires PartlyUpdated(Rows(s, d), inv, inv', d, i)
    requires i * d + d <= d * d
    requires forall k :: 0 <= k < |s| && !(i * d <= k < i * d + d) ==> s'[k] == s[k]
    requires forall k :: i * d <= k < i * d + d ==> s'[k] == inv'[i][k - i * d]
    ensures PartlyUpdated(Rows(s', d), inv, inv', d, i + 1)
  {
    hide Rows;
    assert s'[i * d..i * d + d] == inv'[i];
    OneRowChanged(s, s', d, i, inv'[i]);
  }

  // ---- The loops the information-form learners share --------------------------------------------

  lemma ApplyEntry(m: Matrix, x: Vector, i: nat)
    requires Square(m, |x|) && i < |x|
    ensures Apply(m, x)[i] == Dot(m[i], x)
  {
  }

  /** out = m x, row by row, and x . out. */
  method Image(m: array<real>, x: seq<real>, out: array<real>) returns (xtv: real)
    requires m.Length == |x| * |x| && out.Length == |x| && out != m
    modifies out
    ensures out[..] == Apply(Rows(m[..], |x|), x)
    ensures xtv == Dot(x, out[..])
  {
    hide Apply, DotTo;
    var d := |x|;
    ghost var goal := Apply(Rows(m[..], d), x);
    xtv := 0.0;
    DotToNone(x, goal);
    var i := 0;
    while i < d
      invariant 0 <= i <= d
      invariant m[..] == old(m[..])
      invariant forall k :: 0 <= k < i ==> out[k] == goal[k]
      invariant xtv == DotTo(x, goal, i)
    {
      RowBounds(d, i);
      ApplyEntry(Rows(m[..], d), x, i);
      var rowDot := PlainDot(m, i * d, x);
      DotToNext(x, goal, i);
      out[i] := rowDot;
      xtv := xtv + x[i] * rowDot;
      i := i + 1;
    }
    assert out[..] == goal;
  }

  // The inner loop: the product of a row with a vector.
  method PlainDot(m: array<real>, lo: nat, x: seq<real>) returns (sum: real)
    requires lo + |x| <= m.Length
    ensures sum == Dot(m[lo..lo + |x|], x)
  {
    sum := 0.0;
    var j := 0;
    while j < |x|
      invariant 0 <= j <= |x|
      invariant sum == DotTo(m[lo..lo + |x|], x, j)
    {
      sum := sum + m[lo + j] * x[j];
      j := j + 1;
    }
  }

  function Less(m: real, factor: real, vi: real, vj: real): real {
    m - factor * vi * vj
  }

  /** m <- m - factor * v v^T, entry by entry. */
  method SubtractOuter(m: array<real>, v: seq<real>, factor: real)
    requires m.Length == |v| * |v|
    modifies m
    ensures Rows(m[..], |v|) == RankOne(1.0, Rows(old(m[..]), |v|), -factor, v)
  {
    hide RankOne, Rows, PartlyUpdated;
    var d := |v|;
    ghost var was := Rows(m[..], d);
    ghost var goal := RankOne(1.0, was, -factor, v);
    PartlyStart(was, goal, d);
    var i := 0;
    while i < d
      invariant 0 <= i <= d
      invariant PartlyUpdated(Rows(m[..], d), was, goal, d, i)
    {
      SubtractRow(m, d, i, v, factor, was, goal);
      i := i + 1;
    }
    PartlyEnd(Rows(m[..], d), was, goal, d);
  }

  method SubtractRow(m: array<real>, d: nat, i: nat, v: seq<real>, factor: real, ghost was: Matrix, ghost goal: Matrix)
    requires m.Length == d * d && |v| == d && i < d
    requires Square(was, d) && goal == RankOne(1.0, was, -factor, v)
    requires PartlyUpdated(Rows(m[..], d), was, goal, d, i)
    modifies m
    ensures PartlyUpdated(Rows(m[..], d), was, goal, d, i + 1)
  {
    RowBounds(d, i);
    ghost var before := m[..];
    assert before[i * d..i * d + d] == was[i] by { assert Rows(before, d)[i] == was[i]; }
    SubtractCells(m, i * d, v, factor, i);
    assert goal[i] == RankOneRow(1.0, was, -factor, v, i);
    forall k | i * d <= k < i * d + d ensures m[..][k] == goal[i][k - i * d] {
      assert before[k] == before[i * d..i * d + d][k - i * d];
      LessIs(before[k], factor, v[i], v[k - i * d]);
    }
    UpdateStep(before, m[..], d, i, was, goal);
  }

  lemma LessIs(m: real, factor: real, vi: real, vj: real)
    ensures Less(m, factor, vi, vj) == 1.0 * m + -factor * vi * vj
  {
  }

  method SubtractCells(m: array<real>, lo: nat, v: seq<real>, factor: real, i: nat)
    requires lo + |v| <= m.Length && i < |v|
    modifies m
    ensures forall k :: lo <= k < lo + |v| ==> m[k] == Less(old(m[k]), factor, v[i], v[k - lo])
    ensures forall k :: 0 <= k < m.Length && !(lo <= k < lo + |v|) ==> m[k] == old(m[k])
  {
    hide Less;
    var j := 0;
    while j < |v|
      invariant 0 <= j <= |v|
      invariant forall k :: lo <= k < lo + j ==> m[k] == Less(old(m[k]), factor, v[i], v[k - lo])
      invariant forall k :: 0 <= k < m.Length && !(lo <= k < lo + j) ==> m[k] == old(m[k])
    {
      m[lo + j] := Less(m[lo + j], factor, v[i], v[j]);
      j := j + 1;
    }
  }

  function Plus(y: real, s: real, x: real): real {
    1.0 * y + s * x
  }

  /** y <- y + s * x */
  method AddScaled(y: array<real>, s: real, x: seq<real>)
    requires y.Length == |x|
    modifies y
    ensures y[..] == Lin(1.0, old(y[..]), s, x)
  {
    ghost var goal := Lin(1.0, y[..], s, x);
    assert forall i :: 0 <= i < |x| ==> goal[i] == Plus(y[i], s, x[i]);
    hide Plus, Lin;
    var i := 0;
    while i < |x|
      invariant 0 <= i <= |x|
      invariant forall k :: 0 <= k < i ==> y[k] == goal[k]
      invariant forall k :: i <= k < |x| ==> y[k] == old(y[k])
    {
      y[i] := Plus(y[i], s, x[i]);
      i := i + 1;
    }
    assert y[..] == goal;
  }
}
