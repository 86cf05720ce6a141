/**
 * The numpy array operations the PCA pipeline relies on, over exact reals:
 * a dense two-dimensional array with its shape, row and column access,
 * `np.transpose`, `np.matmul`, scalar broadcasting and the identity matrix.
 */
module Matrices {

  /** A dense `rows x cols` array, stored row-major as numpy holds it. */
  datatype Matrix = Matrix(rows: nat, cols: nat, data: seq<seq<real>>) {
    /** The entries agree with the shape: `rows` rows of `cols` entries each. */
    predicate Valid() {
      |data| == rows && forall i :: 0 <= i < rows ==> |data[i]| == cols
    }
  }

  /** True of a valid matrix of shape `rows x cols`. */
  predicate HasShape(m: Matrix, rows: nat, cols: nat) {
    m.Valid() && m.rows == rows && m.cols == cols
  }

  /** The sum of `s`, accumulated from the first entry to the last. */
  function Sum(s: seq<real>): (r: real) {
    if |s| == 0 then 0.0 else Sum(s[..|s| - 1]) + s[|s| - 1]
  }

  /** The inner product `sum_k u[k] * v[k]`, accumulated in index order. */
  function Dot(u: seq<real>, v: seq<real>): (r: real)
    requires |u| == |v|
  {
    if |u| == 0 then 0.0 else Dot(u[..|u| - 1], v[..|v| - 1]) + u[|u| - 1] * v[|v| - 1]
  }

  /** Column `j` of `m`, that is `m[:, j]`. */
  function Column(m: Matrix, j: nat): (c: seq<real>)
    requires m.Valid() && j < m.cols
    ensures |c| == m.rows
    ensures forall k :: 0 <= k < m.rows ==> c[k] == m.data[k][j]
  {
    seq(m.rows, k requires 0 <= k < m.rows => m.data[k][j])
  }

  /** `np.transpose(m)`: row `j` of the result is column `j` of `m`. */
  function Transpose(m: Matrix): (t: Matrix)
    requires m.Valid()
    ensures HasShape(t, m.cols, m.rows)
    ensures forall j, k :: 0 <= j < m.cols && 0 <= k < m.rows ==> t.data[j][k] == m.data[k][j]
    ensures forall j :: 0 <= j < m.cols ==> t.data[j] == Column(m, j)
  {
    Matrix(m.cols, m.rows, seq(m.cols, j requires 0 <= j < m.cols => Column(m, j)))
  }

  /** `np.matmul(a, b)`; the shapes must agree, which the caller checks. */
  function MatMul(a: Matrix, b: Matrix): (p: Matrix)
    requires a.Valid() && b.Valid() && a.cols == b.rows
    ensures HasShape(p, a.rows, b.cols)
    ensures forall i, j :: 0 <= i < a.rows && 0 <= j < b.cols ==> p.data[i][j] == Dot(a.data[i], Column(b, j))
  {
    Matrix(a.rows, b.cols,
      seq(a.rows, i requires 0 <= i < a.rows =>
        seq(b.cols, j requires 0 <= j < b.cols => Dot(a.data[i], Column(b, j)))))
  }

  /** The scalar broadcast `x * m`. */
  function Scale(x: real, m: Matrix): (s: Matrix)
    requires m.Valid()
    ensures HasShape(s, m.rows, m.cols)
    ensures forall i, j :: 0 <= i < m.rows && 0 <= j < m.cols ==> s.data[i][j] == x * m.data[i][j]
  {
    Matrix(m.rows, m.cols,
      seq(m.rows, i requires 0 <= i < m.rows =>
        seq(m.cols, j requires 0 <= j < m.cols => x * m.data[i][j])))
  }

  /** The scalar broadcast `x * v` on a vector. */
  function ScaleVector(x: real, v: seq<real>): (w: seq<real>)
    ensures |w| == |v|
    ensures forall j :: 0 <= j < |v| ==> w[j] == x * v[j]
  {
    seq(|v|, j requires 0 <= j < |v| => x * v[j])
  }

  /** The broadcast `m - v`: the vector `v` is subtracted from every row. */
  function SubtractFromRows(m: Matrix, v: seq<real>): (d: Matrix)
    requires m.Valid() && |v| == m.cols
    ensures HasShape(d, m.rows, m.cols)
    ensures forall i, j :: 0 <= i < m.rows && 0 <= j < m.cols ==> d.data[i][j] == m.data[i][j] - v[j]
  {
    Matrix(m.rows, m.cols,
      seq(m.rows, i requires 0 <= i < m.rows =>
        seq(m.cols, j requires 0 <= j < m.cols => m.data[i][j] - v[j])))
  }

  /** The product `m * w` of a matrix with a column vector. */
  function MatVec(m: Matrix, w: seq<real>): (r: seq<real>)
    requires m.Valid() && |w| == m.cols
    ensures |r| == m.rows
    ensures forall i :: 0 <= i < m.rows ==> r[i] == Dot(m.data[i], w)
  {
    seq(m.rows, i requires 0 <= i < m.rows => Dot(m.data[i], w))
  }

  /** The column sums of the first `n` rows, `sum_{k < n} m[k][j]` for each `j`. */
  function PrefixColumnSums(m: Matrix, n: nat): (s: seq<real>)
    requires m.Valid() && n <= m.rows
    ensures |s| == m.cols
    ensures forall j :: 0 <= j < m.cols ==> s[j] == Sum(Column(m, j)[..n])
  {
    seq(m.cols, j requires 0 <= j < m.cols => Sum(Column(m, j)[..n]))
  }

  /** The column sums of all rows, `m.sum(axis=0)`. */
  function ColumnSums(m: Matrix): (s: seq<real>)
    requires m.Valid()
    ensures |s| == m.cols
    ensures forall j :: 0 <= j < m.cols ==> s[j] == Sum(Column(m, j))
  {
    seq(m.cols, j requires 0 <= j < m.cols => Sum(Column(m, j)))
  }

  /** The `n x n` identity matrix, `np.eye(n)`. */
  function Identity(n: nat): (e: Matrix)
    ensures HasShape(e, n, n)
    ensures forall i, j :: 0 <= i < n && 0 <= j < n ==> e.data[i][j] == if i == j then 1.0 else 0.0
  {
    Matrix(n, n, seq(n, i => seq(n, j => if i == j then 1.0 else 0.0)))
  }

  /** The inner product does not depend on the order of its arguments. */
  lemma {:induction false} DotSymmetric(u: seq<real>, v: seq<real>)
    requires |u| == |v|
    ensures Dot(u, v) == Dot(v, u)
  {
    if |u| > 0 {
      DotSymmetric(u[..|u| - 1], v[..|v| - 1]);
    }
  }

  /** An inner product of a vector with itself is a sum of squares. */
  lemma {:induction false} DotSelfNonNegative(u: seq<real>)
    ensures Dot(u, u) >= 0.0
  {
    if |u| > 0 {
      DotSelfNonNegative(u[..|u| - 1]);
    }
  }

  /** The inner product of a vector with the zero vector is zero. */
  lemma {:induction false} DotZero(u: seq<real>, z: seq<real>)
    requires |u| == |z|
    requires forall k :: 0 <= k < |z| ==> z[k] == 0.0
    ensures Dot(u, z) == 0.0
  {
    if |u| > 0 {
      DotZero(u[..|u| - 1], z[..|z| - 1]);
    }
  }

  /** The inner product with the `j`-th unit vector picks entry `j`. */
  lemma {:induction false} DotUnit(u: seq<real>, e: seq<real>, j: nat)
    requires |u| == |e| && j < |u|
    requires forall k :: 0 <= k < |e| ==> e[k] == if k == j then 1.0 else 0.0
    ensures Dot(u, e) == u[j]
  {
    var n := |u|;
    if j == n - 1 {
      DotZero(u[..n - 1], e[..n - 1]);
    } else {
      DotUnit(u[..n - 1], e[..n - 1], j);
    }
  }

  /**
   * Subtracting the same amount `c` from each of `n` addends lowers the sum
   * by `n * c`.
   */
  lemma {:induction false} SumShifted(a: seq<real>, b: seq<real>, c: real)
    requires |a| == |b|
    requires forall k :: 0 <= k < |a| ==> b[k] == a[k] - c
    ensures Sum(b) == Sum(a) - (|a| as real) * c
  {
    if |a| > 0 {
      SumShifted(a[..|a| - 1], b[..|b| - 1], c);
    }
  }

  /** Multiplying by the identity matrix gives the matrix back. */
  lemma MatMulIdentity(m: Matrix)
    requires m.Valid()
    ensures MatMul(m, Identity(m.cols)) == m
  {
    var e := Identity(m.cols);
    var p := MatMul(m, e);
    forall i | 0 <= i < m.rows
      ensures p.data[i] == m.data[i]
    {
      forall j | 0 <= j < m.cols
        ensures p.data[i][j] == m.data[i][j]
      {
        DotUnit(m.data[i], Column(e, j), j);
      }
    }
  }

  /** The inner product is additive in its first argument. */
  lemma {:induction false} DotAddLeft(a: seq<real>, b: seq<real>, c: seq<real>, w: seq<real>)
    requires |a| == |b| == |c| == |w|
    requires forall k :: 0 <= k < |c| ==> c[k] == a[k] + b[k]
    ensures Dot(c, w) == Dot(a, w) + Dot(b, w)
  {
    var n := |w|;
    if n > 0 {
      DotAddLeft(a[..n - 1], b[..n - 1], c[..n - 1], w[..n - 1]);
    }
  }

  /** A prefix sum grows by the next entry. */
  lemma SumPrefixStep(s: seq<real>, n: nat)
    requires 0 < n <= |s|
    ensures Sum(s[..n]) == Sum(s[..n - 1]) + s[n - 1]
  {
    assert s[..n][..n - 1] == s[..n - 1];
  }

  /** The column sums of the first `n` rows add row `n - 1` to those of the first `n - 1`. */
  lemma PrefixColumnSumsStep(m: Matrix, n: nat)
    requires m.Valid() && 0 < n <= m.rows
    ensures forall j :: 0 <= j < m.cols ==>
      PrefixColumnSums(m, n)[j] == PrefixColumnSums(m, n - 1)[j] + m.data[n - 1][j]
  {
    forall j | 0 <= j < m.cols
      ensures PrefixColumnSums(m, n)[j] == PrefixColumnSums(m, n - 1)[j] + m.data[n - 1][j]
    {
      SumPrefixStep(Column(m, j), n);
    }
  }

  /**
   * Adding up the first `n` entries of `m * w` is the same as taking the
   * inner product of the first `n` rows' column sums with `w`.
   */
  lemma {:induction false} SumOfMatVec(m: Matrix, w: seq<real>, n: nat)
    requires m.Valid() && |w| == m.cols && n <= m.rows
    ensures Sum(MatVec(m, w)[..n]) == Dot(PrefixColumnSums(m, n), w)
  {
    var sums := PrefixColumnSums(m, n);
    if n == 0 {
      DotZero(w, sums);
      DotSymmetric(w, sums);
    } else {
      var mv := MatVec(m, w);
      var previous := PrefixColumnSums(m, n - 1);
      SumOfMatVec(m, w, n - 1);
      SumPrefixStep(mv, n);
      PrefixColumnSumsStep(m, n);
      DotAddLeft(previous, m.data[n - 1], sums, w);
    }
  }

  /**
   * The column sums of a product are the column sums of the left factor
   * multiplied by the right factor.
   */
  lemma ColumnSumsOfMatMul(a: Matrix, b: Matrix)
    requires a.Valid() && b.Valid() && a.cols == b.rows
    ensures forall j :: 0 <= j < b.cols ==> Sum(Column(MatMul(a, b), j)) == Dot(ColumnSums(a), Column(b, j))
  {
    forall j | 0 <= j < b.cols
      ensures Sum(Column(MatMul(a, b), j)) == Dot(ColumnSums(a), Column(b, j))
    {
      assert Column(MatMul(a, b), j) == MatVec(a, Column(b, j));
      SumOfMatVec(a, Column(b, j), a.rows);
      assert MatVec(a, Column(b, j))[..a.rows] == MatVec(a, Column(b, j));
      forall k | 0 <= k < a.cols
        ensures PrefixColumnSums(a, a.rows)[k] == ColumnSums(a)[k]
      {
        assert Column(a, k)[..a.rows] == Column(a, k);
      }
      assert PrefixColumnSums(a, a.rows) == ColumnSums(a);
    }
  }

  /** The inner product is additive in its second argument. */
  lemma {:induction false} DotAddRight(w: seq<real>, a: seq<real>, b: seq<real>, c: seq<real>)
    requires |a| == |b| == |c| == |w|
    requires forall k :: 0 <= k < |c| ==> c[k] == a[k] + b[k]
    ensures Dot(w, c) == Dot(w, a) + Dot(w, b)
  {
    DotAddLeft(a, b, c, w);
    DotSymmetric(w, a);
    DotSymmetric(w, b);
    DotSymmetric(w, c);
  }

  /** A factor common to every entry of the second argument comes out of the inner product. */
  lemma {:induction false} DotScaleRight(w: seq<real>, a: seq<real>, x: real, s: seq<real>)
    requires |a| == |s| == |w|
    requires forall k :: 0 <= k < |s| ==> s[k] == x * a[k]
    ensures Dot(w, s) == x * Dot(w, a)
  {
    var n := |w|;
    if n > 0 {
      DotScaleRight(w[..n - 1], a[..n - 1], x, s[..n - 1]);
      assert w[n - 1] * s[n - 1] == x * (w[n - 1] * a[n - 1]);
    }
  }

  /** A factor common to every entry of the first argument comes out of the inner product. */
  lemma {:induction false} DotScaleLeft(x: real, a: seq<real>, w: seq<real>)
    requires |a| == |w|
    ensures Dot(ScaleVector(x, a), w) == x * Dot(a, w)
  {
    DotSymmetric(ScaleVector(x, a), w);
    DotScaleRight(w, a, x, ScaleVector(x, a));
    DotSymmetric(w, a);
  }

  /** The vector `a + t * b`. */
  function AddScaled(a: seq<real>, t: real, b: seq<real>): (c: seq<real>)
    requires |a| == |b|
    ensures |c| == |a|
    ensures forall k :: 0 <= k < |a| ==> c[k] == a[k] + t * b[k]
  {
    seq(|a|, k requires 0 <= k < |a| => a[k] + t * b[k])
  }

  /** `u . (a + t * b) == u . a + t * (b . u)`. */
  lemma {:induction false} DotAddScaled(u: seq<real>, a: seq<real>, t: real, b: seq<real>)
    requires |u| == |a| == |b|
    ensures Dot(u, AddScaled(a, t, b)) == Dot(u, a) + t * Dot(b, u)
  {
    var tb := ScaleVector(t, b);
    assert Dot(u, AddScaled(a, t, b)) == Dot(u, a) + Dot(u, tb) by {
      DotAddRight(u, a, tb, AddScaled(a, t, b));
    }
    assert Dot(u, tb) == t * Dot(u, b) by {
      DotScaleRight(u, b, t, tb);
    }
    DotSymmetric(u, b);
  }

  /** The first `n - 1` rows of `m`, a `(n - 1) x cols` matrix. */
  function DropLastRow(m: Matrix): (d: Matrix)
    requires m.Valid() && m.rows > 0
    ensures HasShape(d, m.rows - 1, m.cols)
    ensures forall k :: 0 <= k < m.rows - 1 ==> d.data[k] == m.data[k]
  {
    Matrix(m.rows - 1, m.cols, m.data[..m.rows - 1])
  }

  /**
   * Adding the last row to `transpose(m') * y'` for the matrix `m'` without it:
   * entry `i` of `transpose(m) * y` grows by `y[n-1] * m[n-1][i]`.
   */
  lemma {:induction false} TransposeMatVecStep(m: Matrix, y: seq<real>)
    requires m.Valid() && m.rows > 0 && |y| == m.rows
    ensures MatVec(Transpose(m), y) ==
      AddScaled(MatVec(Transpose(DropLastRow(m)), y[..m.rows - 1]), y[m.rows - 1], m.data[m.rows - 1])
  {
    var d := DropLastRow(m);
    forall i | 0 <= i < m.cols
      ensures MatVec(Transpose(m), y)[i] ==
        MatVec(Transpose(d), y[..m.rows - 1])[i] + y[m.rows - 1] * m.data[m.rows - 1][i]
    {
      assert Column(m, i)[..m.rows - 1] == Column(d, i);
    }
  }

  /** Dropping the last row of `m` drops the last entry of `m * u`. */
  lemma MatVecDropLastRow(m: Matrix, u: seq<real>)
    requires m.Valid() && m.rows > 0 && |u| == m.cols
    ensures MatVec(m, u)[..m.rows - 1] == MatVec(DropLastRow(m), u)
  {
  }

  /**
   * The last row's share of `u . (transpose(m) * y)`: it is the inner
   * product for the other rows plus `y[n-1] * (row . u)`.
   */
  lemma {:induction false} TransposeAdjointLeft(m: Matrix, u: seq<real>, y: seq<real>)
    requires m.Valid() && m.rows > 0 && |u| == m.cols && |y| == m.rows
    ensures Dot(u, MatVec(Transpose(m), y)) ==
      Dot(u, MatVec(Transpose(DropLastRow(m)), y[..m.rows - 1])) + y[m.rows - 1] * Dot(m.data[m.rows - 1], u)
  {
    TransposeMatVecStep(m, y);
    DotAddScaled(u, MatVec(Transpose(DropLastRow(m)), y[..m.rows - 1]), y[m.rows - 1], m.data[m.rows - 1]);
  }

  /** The last row's share of `(m * u) . y`, by unfolding the inner product once. */
  lemma {:induction false} TransposeAdjointRight(m: Matrix, u: seq<real>, y: seq<real>)
    requires m.Valid() && m.rows > 0 && |u| == m.cols && |y| == m.rows
    ensures Dot(MatVec(m, u), y) ==
      Dot(MatVec(DropLastRow(m), u), y[..m.rows - 1])
      + y[m.rows - 1] * Dot(m.data[m.rows - 1], u)
  {
    var n := m.rows;
    var mu := MatVec(m, u);
    MatVecDropLastRow(m, u);
    assert Dot(mu, y) == Dot(mu[..n - 1], y[..n - 1]) + mu[n - 1] * y[n - 1];
    assert mu[n - 1] == Dot(m.data[n - 1], u);
  }

  /** The induction step: the identity for all rows but the last gives it for all rows. */
  lemma {:induction false} TransposeAdjointStep(m: Matrix, u: seq<real>, y: seq<real>)
    requires m.Valid() && m.rows > 0 && |u| == m.cols && |y| == m.rows
    requires Dot(u, MatVec(Transpose(DropLastRow(m)), y[..m.rows - 1])) ==
      Dot(MatVec(DropLastRow(m), u), y[..m.rows - 1])
    ensures Dot(u, MatVec(Transpose(m), y)) == Dot(MatVec(m, u), y)
  {
    TransposeAdjointLeft(m, u, y);
    TransposeAdjointRight(m, u, y);
  }

  /**
   * The transpose is the adjoint of a matrix for the inner product:
   * `u . (transpose(m) * y) == (m * u) . y`.
   */
  lemma {:induction false} TransposeAdjoint(m: Matrix, u: seq<real>, y: seq<real>)
    requires m.Valid() && |u| == m.cols && |y| == m.rows
    ensures Dot(u, MatVec(Transpose(m), y)) == Dot(MatVec(m, u), y)
    decreases m.rows
  {
    if m.rows == 0 {
      DotZero(u, MatVec(Transpose(m), y));
    } else {
      TransposeAdjoint(DropLastRow(m), u, y[..m.rows - 1]);
      TransposeAdjointStep(m, u, y);
    }
  }
}
