/**
 * The numeric core of the PCA transform: centering the data, the covariance
 * matrix of centred data, ranking eigenvalues in decreasing order, and
 * projecting data onto an eigenvector basis. Entries are exact reals.
 */
module Pca {
  import opened Matrices
  import opened Sorting

  /** The exceptions the core raises. */
  datatype Error =
    | DivisionByZero  // Python's ZeroDivisionError from `1 / n_samples` with no samples
    | ShapeMismatch   // numpy's ValueError when the inner dimensions of `matmul` differ

  datatype Result<T> = Success(value: T) | Failure(error: Error)

  // ---------------------------------------------------------------------
  // Centering
  // ---------------------------------------------------------------------

  /**
   * The data with the mean of every column subtracted from each of its
   * entries, computed as `m - 1 / n_samples * mu` where `mu` holds the
   * column sums.
   */
  function Centered(m: Matrix): (c: Matrix)
    requires m.Valid() && m.rows > 0
    ensures HasShape(c, m.rows, m.cols)
    ensures forall i, j :: 0 <= i < m.rows && 0 <= j < m.cols ==>
      c.data[i][j] == m.data[i][j] - (1.0 / m.rows as real) * Sum(Column(m, j))
  {
    SubtractFromRows(m, ScaleVector(1.0 / m.rows as real, ColumnSums(m)))
  }

  /**
   * `substract_mean`: accumulates the column sums row by row, then subtracts
   * their mean from every row. With no samples the division fails.
   */
  method SubstractMean(mat: Matrix) returns (res: Result<Matrix>)
    requires mat.Valid()
    ensures mat.rows == 0 ==> res == Failure(DivisionByZero)
    ensures mat.rows > 0 ==> res == Success(Centered(mat))
  {
    var mu: seq<real> := seq(mat.cols, _ => 0.0);
    var i := 0;
    while i < mat.rows
      invariant 0 <= i <= mat.rows
      invariant |mu| == mat.cols
      invariant mu == PrefixColumnSums(mat, i)
    {
      var row := mat.data[i];
      forall j | 0 <= j < mat.cols
        ensures PrefixColumnSums(mat, i + 1)[j] == mu[j] + row[j]
      {
        assert Column(mat, j)[..i + 1][..i] == Column(mat, j)[..i];
      }
      mu := seq(mat.cols, j requires 0 <= j < mat.cols => mu[j] + row[j]);
      i := i + 1;
    }
    if mat.rows == 0 {
      return Failure(DivisionByZero);
    }
    forall j | 0 <= j < mat.cols
      ensures PrefixColumnSums(mat, mat.rows)[j] == ColumnSums(mat)[j]
    {
      assert Column(mat, j)[..mat.rows] == Column(mat, j);
    }
    assert mu == ColumnSums(mat);
    res := Success(SubtractFromRows(mat, ScaleVector(1.0 / mat.rows as real, mu)));
  }

  /** After centering, column `j` sums to zero. */
  lemma CenteredColumnSumIsZero(m: Matrix, j: nat)
    requires m.Valid() && m.rows > 0 && j < m.cols
    ensures Sum(Column(Centered(m), j)) == 0.0
  {
    var n := m.rows as real;
    var s := Sum(Column(m, j));
    SumShifted(Column(m, j), Column(Centered(m), j), (1.0 / n) * s);
    assert n * (1.0 / n) == 1.0;
    assert n * ((1.0 / n) * s) == (n * (1.0 / n)) * s;
  }

  /** After centering, every column sums to zero, so its mean is zero. */
  lemma CenteredColumnsSumToZero(m: Matrix)
    requires m.Valid() && m.rows > 0
    ensures forall j :: 0 <= j < m.cols ==> Sum(Column(Centered(m), j)) == 0.0
  {
    forall j | 0 <= j < m.cols
      ensures Sum(Column(Centered(m), j)) == 0.0
    {
      CenteredColumnSumIsZero(m, j);
    }
  }

  /** A single sample is its own mean, so centering it gives all zeros. */
  lemma SingleRowCentersToZero(m: Matrix)
    requires m.Valid() && m.rows == 1
    ensures forall j :: 0 <= j < m.cols ==> Centered(m).data[0][j] == 0.0
  {
    forall j | 0 <= j < m.cols
      ensures Centered(m).data[0][j] == 0.0
    {
      assert Column(m, j) == [m.data[0][j]];
      assert Sum(Column(m, j)) == Sum([]) + m.data[0][j];
    }
  }

  // ---------------------------------------------------------------------
  // Covariance
  // ---------------------------------------------------------------------

  /**
   * `get_covariance_matrix`: `1 / n_samples * transpose(c) * c`. Whether
   * `c` is centred is the caller's business; it is not checked.
   */
  function GetCovarianceMatrix(c: Matrix): (r: Result<Matrix>)
    requires c.Valid()
    ensures r.Failure? <==> c.rows == 0
    ensures r.Failure? ==> r.error == DivisionByZero
    ensures r.Success? ==> HasShape(r.value, c.cols, c.cols)
    ensures r.Success? ==> forall i, j :: 0 <= i < c.cols && 0 <= j < c.cols ==>
      r.value.data[i][j] == (1.0 / c.rows as real) * Dot(Column(c, i), Column(c, j))
  {
    if c.rows == 0 then
      Failure(DivisionByZero)
    else
      Success(Scale(1.0 / c.rows as real, MatMul(Transpose(c), c)))
  }

  /** The covariance matrix is symmetric. */
  lemma CovarianceSymmetric(c: Matrix)
    requires c.Valid() && c.rows > 0
    ensures forall i, j :: 0 <= i < c.cols && 0 <= j < c.cols ==>
      GetCovarianceMatrix(c).value.data[i][j] == GetCovarianceMatrix(c).value.data[j][i]
  {
    var cov := GetCovarianceMatrix(c).value;
    var x := 1.0 / c.rows as real;
    forall i, j | 0 <= i < c.cols && 0 <= j < c.cols
      ensures cov.data[i][j] == cov.data[j][i]
    {
      var ci, cj := Column(c, i), Column(c, j);
      DotSymmetric(ci, cj);
      assert cov.data[i][j] == x * Dot(ci, cj);
      assert cov.data[j][i] == x * Dot(cj, ci);
    }
  }

  /** Every variance on the diagonal is a scaled sum of squares, so not negative. */
  lemma CovarianceDiagonalNonNegative(c: Matrix)
    requires c.Valid() && c.rows > 0
    ensures forall i :: 0 <= i < c.cols ==> GetCovarianceMatrix(c).value.data[i][i] >= 0.0
  {
    forall i | 0 <= i < c.cols
      ensures GetCovarianceMatrix(c).value.data[i][i] >= 0.0
    {
      DotSelfNonNegative(Column(c, i));
      var n := c.rows as real;
      var d := Dot(Column(c, i), Column(c, i));
      assert (1.0 / n) * d >= 0.0;
    }
  }

  /** Row `i` of `scale * transpose(c) * c` is `scale * transpose(c) * c[:, i]`. */
  lemma {:induction false} ScaledGramRow(c: Matrix, scale: real, i: nat)
    requires c.Valid() && i < c.cols
    ensures Scale(scale, MatMul(Transpose(c), c)).data[i] ==
      ScaleVector(scale, MatVec(Transpose(c), Column(c, i)))
  {
    var g := Scale(scale, MatMul(Transpose(c), c));
    var tci := MatVec(Transpose(c), Column(c, i));
    forall j | 0 <= j < c.cols
      ensures g.data[i][j] == scale * tci[j]
    {
      assert g.data[i][j] == scale * Dot(Column(c, i), Column(c, j));
      assert tci[j] == Dot(Column(c, j), Column(c, i));
      DotSymmetric(Column(c, j), Column(c, i));
    }
    var row := ScaleVector(scale, tci);
    assert |g.data[i]| == |row| == c.cols;
    assert forall j :: 0 <= j < c.cols ==> g.data[i][j] == row[j];
  }

  /** Every row of `scale * transpose(c) * c` has the form `ScaledGramRow` states. */
  lemma {:induction false} ScaledGramRows(c: Matrix, scale: real)
    requires c.Valid()
    ensures forall i :: 0 <= i < c.cols ==>
      Scale(scale, MatMul(Transpose(c), c)).data[i] == ScaleVector(scale, MatVec(Transpose(c), Column(c, i)))
  {
    forall i | 0 <= i < c.cols
      ensures Scale(scale, MatMul(Transpose(c), c)).data[i] ==
        ScaleVector(scale, MatVec(Transpose(c), Column(c, i)))
    {
      ScaledGramRow(c, scale, i);
    }
  }

  /** `(transpose(c) * c[:, i]) . x` is entry `i` of `transpose(c) * (c * x)`. */
  lemma {:induction false} GramEntry(c: Matrix, x: seq<real>, i: nat)
    requires c.Valid() && |x| == c.cols && i < c.cols
    ensures Dot(MatVec(Transpose(c), Column(c, i)), x) == MatVec(Transpose(c), MatVec(c, x))[i]
  {
    DotSymmetric(MatVec(Transpose(c), Column(c, i)), x);
    TransposeAdjoint(c, x, Column(c, i));
    DotSymmetric(MatVec(c, x), Column(c, i));
  }

  /**
   * Applying row `i` of `scale * transpose(c) * c` to `x` gives entry `i`
   * of `scale * transpose(c) * (c * x)`.
   */
  lemma {:induction false} ScaledGramRowApplied(c: Matrix, x: seq<real>, i: nat, scale: real)
    requires c.Valid() && |x| == c.cols && i < c.cols
    ensures Dot(ScaleVector(scale, MatVec(Transpose(c), Column(c, i))), x) ==
      scale * MatVec(Transpose(c), MatVec(c, x))[i]
  {
    DotScaleLeft(scale, MatVec(Transpose(c), Column(c, i)), x);
    GramEntry(c, x, i);
  }

  /**
   * A matrix whose rows are those of `scale * transpose(c) * c` maps `x` to
   * `scale * transpose(c) * (c * x)`.
   */
  lemma {:induction false} ScaledGramTimes(c: Matrix, x: seq<real>, g: Matrix, scale: real)
    requires c.Valid() && |x| == c.cols && HasShape(g, c.cols, c.cols)
    requires forall i :: 0 <= i < c.cols ==>
      g.data[i] == ScaleVector(scale, MatVec(Transpose(c), Column(c, i)))
    ensures MatVec(g, x) == ScaleVector(scale, MatVec(Transpose(c), MatVec(c, x)))
  {
    var lhs := MatVec(g, x);
    var rhs := ScaleVector(scale, MatVec(Transpose(c), MatVec(c, x)));
    forall i | 0 <= i < c.cols
      ensures lhs[i] == rhs[i]
    {
      ScaledGramRowApplied(c, x, i, scale);
    }
    assert |lhs| == |rhs| == c.cols;
  }

  /** `x . (scale * transpose(c) * (c * x)) == scale * |c * x|^2`. */
  lemma {:induction false} ScaledGramQuadratic(c: Matrix, x: seq<real>, scale: real)
    requires c.Valid() && |x| == c.cols
    ensures Dot(x, ScaleVector(scale, MatVec(Transpose(c), MatVec(c, x)))) ==
      scale * Dot(MatVec(c, x), MatVec(c, x))
  {
    DotScaleRight(x, MatVec(Transpose(c), MatVec(c, x)), scale,
      ScaleVector(scale, MatVec(Transpose(c), MatVec(c, x))));
    TransposeAdjoint(c, x, MatVec(c, x));
  }

  /** The quadratic form of `scale * transpose(c) * c` in direction `x` is `scale * |c * x|^2`. */
  lemma {:induction false} ScaledGramQuadraticForm(c: Matrix, x: seq<real>, scale: real)
    requires c.Valid() && |x| == c.cols
    ensures Dot(x, MatVec(Scale(scale, MatMul(Transpose(c), c)), x)) ==
      scale * Dot(MatVec(c, x), MatVec(c, x))
  {
    ScaledGramRows(c, scale);
    ScaledGramTimes(c, x, Scale(scale, MatMul(Transpose(c), c)), scale);
    ScaledGramQuadratic(c, x, scale);
  }

  /** For `scale >= 0` the matrix `scale * transpose(c) * c` is positive semidefinite. */
  lemma {:induction false} ScaledGramPositiveSemidefinite(c: Matrix, x: seq<real>, g: Matrix, scale: real)
    requires c.Valid() && |x| == c.cols && scale >= 0.0
    requires g == Scale(scale, MatMul(Transpose(c), c))
    ensures Dot(x, MatVec(g, x)) >= 0.0
  {
    ScaledGramQuadraticForm(c, x, scale);
    DotSelfNonNegative(MatVec(c, x));
  }

  /** The covariance matrix is positive semidefinite: `x . (cov * x) >= 0` for every `x`. */
  lemma {:induction false} CovariancePositiveSemidefinite(c: Matrix, x: seq<real>)
    requires c.Valid() && c.rows > 0 && |x| == c.cols
    ensures Dot(x, MatVec(GetCovarianceMatrix(c).value, x)) >= 0.0
  {
    ScaledGramPositiveSemidefinite(c, x, GetCovarianceMatrix(c).value, 1.0 / c.rows as real);
  }

  /** The covariance of a single centred sample is the zero matrix. */
  lemma SingleRowCovarianceIsZero(m: Matrix)
    requires m.Valid() && m.rows == 1
    ensures forall i, j :: 0 <= i < m.cols && 0 <= j < m.cols ==>
      GetCovarianceMatrix(Centered(m)).value.data[i][j] == 0.0
  {
    var c := Centered(m);
    SingleRowCentersToZero(m);
    forall i, j | 0 <= i < m.cols && 0 <= j < m.cols
      ensures GetCovarianceMatrix(c).value.data[i][j] == 0.0
    {
      DotZero(Column(c, i), Column(c, j));
    }
  }

  // ---------------------------------------------------------------------
  // Ranking
  // ---------------------------------------------------------------------

  /** The negative entries of `s`, in the order they appear. */
  function Negatives(s: seq<real>): (r: seq<real>)
    ensures |r| <= |s|
    ensures forall x :: x in r <==> x in s && x < 0.0
    ensures forall x :: multiset(r)[x] == if x < 0.0 then multiset(s)[x] else 0
  {
    if |s| == 0 then []
    else
      assert s == s[..|s| - 1] + [s[|s| - 1]];
      Negatives(s[..|s| - 1]) + (if s[|s| - 1] < 0.0 then [s[|s| - 1]] else [])
  }

  /**
   * `sort_values`: the indices of `eVals` from the largest value to the
   * smallest (`flip(argsort(eVals))`), and the values it reports as
   * negative, in the order it reports them. `eVecs` is neither read nor
   * reordered.
   */
  method SortValues(eVals: seq<real>, eVecs: Matrix) returns (index: seq<nat>, reported: seq<real>)
    ensures IsPermutation(index, |eVals|)
    ensures IndexesInto(index, eVals) && DescendingBy(index, eVals)
    ensures reported == Negatives(eVals)
  {
    var ascending := ArgSort(eVals);
    FlipAscending(ascending, eVals);
    index := Flip(ascending);

    reported := [];
    var i := 0;
    while i < |eVals|
      invariant 0 <= i <= |eVals|
      invariant reported == Negatives(eVals[..i])
    {
      assert eVals[..i + 1][..i] == eVals[..i];
      if eVals[i] < 0.0 {
        reported := reported + [eVals[i]];
      }
      i := i + 1;
    }
    assert eVals[..|eVals|] == eVals;
  }

  /** A ranking that is a permutation and descending starts at a largest value. */
  lemma TopRankIsLargest(eVals: seq<real>, index: seq<nat>)
    requires IsPermutation(index, |eVals|)
    requires IndexesInto(index, eVals) && DescendingBy(index, eVals)
    requires |eVals| > 0
    ensures forall k :: 0 <= k < |eVals| ==> eVals[index[0]] >= eVals[k]
  {
    forall k | 0 <= k < |eVals|
      ensures eVals[index[0]] >= eVals[k]
    {
      assert k in index;
      var p :| 0 <= p < |index| && index[p] == k;
    }
  }

  // ---------------------------------------------------------------------
  // Projection
  // ---------------------------------------------------------------------

  /**
   * `apply_transform`: the product `mat * eVecs`; numpy refuses it when the
   * columns of `mat` do not match the rows of `eVecs`.
   */
  function ApplyTransform(mat: Matrix, eVecs: Matrix): (r: Result<Matrix>)
    requires mat.Valid() && eVecs.Valid()
    ensures r.Failure? <==> mat.cols != eVecs.rows
    ensures r.Failure? ==> r.error == ShapeMismatch
    ensures r.Success? ==> HasShape(r.value, mat.rows, eVecs.cols)
    ensures r.Success? ==> forall i, j :: 0 <= i < mat.rows && 0 <= j < eVecs.cols ==>
      r.value.data[i][j] == Dot(mat.data[i], Column(eVecs, j))
  {
    if mat.cols != eVecs.rows then Failure(ShapeMismatch) else Success(MatMul(mat, eVecs))
  }

  /** Projecting onto the identity basis leaves the data unchanged. */
  lemma ApplyTransformIdentity(mat: Matrix)
    requires mat.Valid()
    ensures ApplyTransform(mat, Identity(mat.cols)) == Success(mat)
  {
    MatMulIdentity(mat);
  }

  /**
   * Projection is linear: the column sums of the projected data are the
   * projected column sums of the data.
   */
  lemma ProjectionOfColumnSums(mat: Matrix, eVecs: Matrix)
    requires mat.Valid() && eVecs.Valid() && mat.cols == eVecs.rows
    ensures forall j :: 0 <= j < eVecs.cols ==>
      Sum(Column(ApplyTransform(mat, eVecs).value, j)) == Dot(ColumnSums(mat), Column(eVecs, j))
  {
    ColumnSumsOfMatMul(mat, eVecs);
  }

  /** Projecting centred data onto any basis gives data with zero mean. */
  lemma ProjectedCenteredDataHasZeroMean(m: Matrix, eVecs: Matrix)
    requires m.Valid() && m.rows > 0 && eVecs.Valid() && m.cols == eVecs.rows
    ensures forall j :: 0 <= j < eVecs.cols ==>
      Sum(Column(ApplyTransform(Centered(m), eVecs).value, j)) == 0.0
  {
    var c := Centered(m);
    ProjectionOfColumnSums(c, eVecs);
    CenteredColumnsSumToZero(m);
    forall j | 0 <= j < eVecs.cols
      ensures Dot(ColumnSums(c), Column(eVecs, j)) == 0.0
    {
      DotSymmetric(ColumnSums(c), Column(eVecs, j));
      DotZero(Column(eVecs, j), ColumnSums(c));
    }
  }
}
