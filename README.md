# PCA core in Dafny

This project models the numeric core of a small PCA (principal component
analysis) script and proves properties of the model. Four steps are covered:
- centering the data (`substract_mean`);
- the covariance matrix of centred data (`get_covariance_matrix`);
- ranking eigenvalues in decreasing order (`sort_values`);
- projecting data onto an eigenvector basis (`apply_transform`).

Entries are exact `real`s, so floating-point rounding is not modelled.

Files:
- `matrices.dfy` (module `Matrices`): the numpy operations the script uses, over a
  `Matrix` value that carries its shape (`rows`, `cols`) and its entries
  (`data: seq<seq<real>>`), with `Valid()` saying the entries fit the shape.
  It defines `np.transpose`, `np.matmul`, scalar broadcasting, row-wise
  broadcast subtraction, column sums and the inner product, plus lemmas about
  them: symmetry of the inner product, sums of squares are not negative,
  multiplying by the identity, column sums of a product, and that the
  transpose is the adjoint for the inner product (`u·(mᵀy) == (mu)·y`).
- `sorting.dfy` (module `Sorting`): `np.argsort`, modelled as an insertion sort
  over indices, and `np.flip`. It also holds what a ranking is (a permutation of
  `0 .. n-1`, non-increasing by value) and the proof that tie order cannot change
  the ranked values.
- `pca.dfy` (module `Pca`): the four functions of `PCA/PCA.py` and the properties
  their docstrings promise. This includes that the covariance matrix is
  symmetric and positive semidefinite.
- `scenarios.dfy` (module `Scenarios`): a worked example. Four samples at the
  corners of a square centre to `(±1, ±1)`, and their covariance matrix is the
  identity.

Error paths come back as `Result` values, not as preconditions:
- `1 / mat.shape[0]` with no samples raises Python's `ZeroDivisionError`, in both
  `substract_mean` and `get_covariance_matrix`. The model returns
  `Failure(DivisionByZero)`.
- `np.matmul` with mismatched inner dimensions raises a `ValueError`. The model
  returns `Failure(ShapeMismatch)`.

The one precondition left is `Valid()`: the input is a rectangular 2-D array.
numpy makes every array rectangular, but it does not make every array 2-D.
Inputs of another rank are listed under "## Left out".

`sort_values` prints every negative eigenvalue. The model returns those printed
values, in printing order, as a second result (`reported`). That makes visible
that the scan only reports and changes nothing.

Two behaviours follow the code rather than an idealised PCA:
- Ranking ties: a stable sort would keep equal eigenvalues in index order. The code uses
  `np.flip(np.argsort(e_vals))`. numpy's default sort is not stable, and the flip
  reverses any tie order. So the model promises only a permutation that is
  non-increasing by value. `Sorting.RankedValuesAgree` proves that this fixes the
  ranked values completely; only the order of indices with equal values is left
  open.
- Fewer than one sample: this is not excluded by a precondition. The code
  raises `ZeroDivisionError`, and the model returns that error.

## Model

| member | source | states |
|---|---|---|
| `Pca.SubstractMean` | PCA/PCA.py:54-74 | loop that adds the rows into `mu`; with no samples the division fails (`DivisionByZero`), otherwise the result is exactly `Centered(mat)` |
| `Pca.Centered` | PCA/PCA.py:74 | a matrix of the input's shape whose entry (r,c) is `mat[r][c] − (1/rows)·Σ_k mat[k][c]` |
| `Pca.CenteredColumnsSumToZero` | PCA/PCA.py:66-74 | every column of the centred data sums to zero ("dataset with zero mean") |
| `Pca.SingleRowCentersToZero` | PCA/PCA.py:71-74 | a single-sample input centres to all zeros |
| `Pca.GetCovarianceMatrix` | PCA/PCA.py:77-101 | fails exactly when there are no samples; otherwise a cols × cols matrix whose entry (i,j) is `(1/rows)·Σ_k C[k][i]·C[k][j]` |
| `Pca.CovarianceSymmetric` | PCA/PCA.py:100-101 | the covariance matrix is symmetric, `cov[i][j] == cov[j][i]` |
| `Pca.CovarianceDiagonalNonNegative` | PCA/PCA.py:100-101 | every diagonal entry of the covariance matrix is ≥ 0 |
| `Pca.ScaledGramQuadraticForm` | PCA/PCA.py:101 | for any scalar `s` and vector `x`, `x·((s·Cᵀ·C)·x) == s·((C·x)·(C·x))` |
| `Pca.ScaledGramPositiveSemidefinite` | PCA/PCA.py:101 | for `s ≥ 0`, the matrix `M = s·Cᵀ·C` has `x·(M·x) ≥ 0` for every vector `x` |
| `Pca.CovariancePositiveSemidefinite` | PCA/PCA.py:100-101 | the covariance matrix is positive semidefinite: `x·(cov·x) ≥ 0` for every vector `x` of length `cols` |
| `Pca.SingleRowCovarianceIsZero` | PCA/PCA.py:71-101 | the covariance of a centred single sample is the zero matrix |
| `Pca.Negatives` | PCA/PCA.py:153-156 | the values the scan prints: exactly the negative entries of `e_vals`, each as often as it occurs there |
| `Pca.SortValues` | PCA/PCA.py:133-158 | returns a permutation of `0..n-1` that reads `e_vals` in non-increasing order; reports exactly the negative values in scan order; `e_vecs` plays no part |
| `Pca.TopRankIsLargest` | PCA/PCA.py:151 | the first ranked index holds a largest eigenvalue |
| `Pca.ApplyTransform` | PCA/PCA.py:161-164 | fails exactly when `mat.cols != e_vecs.rows`; otherwise a rows × `e_vecs.cols` matrix whose entry (r,j) is `Σ_k mat[r][k]·e_vecs[k][j]` |
| `Pca.ApplyTransformIdentity` | PCA/PCA.py:164 | projecting onto the identity basis returns the data unchanged |
| `Pca.ProjectionOfColumnSums` | PCA/PCA.py:164 | the column sums of the projected data are the data's column sums times `e_vecs` (projection is linear) |
| `Pca.ProjectedCenteredDataHasZeroMean` | PCA/PCA.py:161-164 | centred data projected onto any basis of matching size still has zero column sums |
| `Sorting.ArgSort` | PCA/PCA.py:151 | `np.argsort`: a permutation of `0..n-1` that reads the values in non-decreasing order |
| `Sorting.Flip` | PCA/PCA.py:151 | `np.flip`: same length, entry i is entry `n-1-i` of the input |
| `Sorting.FlipAscending` | PCA/PCA.py:151 | flipping a non-decreasing ranking gives a non-increasing one, and keeps it a permutation |
| `Sorting.RankedValuesAgree` | PCA/PCA.py:151 | any two non-increasing permutation rankings read the same value at every position, so tie order never changes the ranked eigenvalues |
| `Matrices.ColumnSums` | PCA/PCA.py:71-73 | the vector `mu`: for each column, the sum of that column over all rows |
| `Matrices.PrefixColumnSums` | PCA/PCA.py:72-73 | `mu` after the loop has added the first n rows |
| `Matrices.Transpose` | PCA/PCA.py:101 | `np.transpose`: a cols × rows matrix with entry (j,k) equal to entry (k,j) of the input |
| `Matrices.MatMul` | PCA/PCA.py:101 | `np.matmul`: an a.rows × b.cols matrix whose entry (i,j) is row i of `a` dotted with column j of `b` |
| `Matrices.Scale` | PCA/PCA.py:101 | the broadcast `1 / dim1 * M`: same shape, every entry multiplied by the scalar |
| `Matrices.ScaleVector` | PCA/PCA.py:74 | the broadcast `1 / mat.shape[0] * mu`: every entry of the vector multiplied by the scalar |
| `Matrices.SubtractFromRows` | PCA/PCA.py:74 | the row-wise broadcast `mat - v`: same shape, entry (r,c) is `mat[r][c] − v[c]` |
| `Matrices.MatMulIdentity` | PCA/PCA.py:164 | multiplying by the identity on the right returns the matrix |
| `Matrices.TransposeAdjoint` | PCA/PCA.py:101 | `np.transpose` is the adjoint for the inner product: `u·(transpose(m)·y) == (m·u)·y` |
| `Matrices.ColumnSumsOfMatMul` | PCA/PCA.py:164 | column j of `a·b` sums to `ColumnSums(a)` dotted with column j of `b` |
| `Scenarios.FourSamplesCentered` | PCA/PCA.py:54-74 | centring `(0,0),(2,0),(0,2),(2,2)` gives `(-1,-1),(1,-1),(-1,1),(1,1)` |
| `Scenarios.FourSamplesCovariance` | PCA/PCA.py:77-101 | the covariance of those centred samples is the 2 × 2 identity |
| `Scenarios.FourSamplesPipeline` | PCA/PCA.py:54-101 | centring then covariance turns the four samples into the identity matrix |

## Left out

- `eigenvectors` (PCA/PCA.py:104-130) is a single call to `np.linalg.eig`, foreign code with no logic of its own. Its outputs appear only as inputs to `SortValues` and `ApplyTransform`. Its docstring promises an `AssertionError` on non-square input, but the code has no such check, so none is modelled.
- `read_csv_data` (PCA/PCA.py:18-52) is file I/O plus Python `float()` parsing. The model starts from a matrix that is already in memory.
- `generate_data` (PCA/PCA.py:10-15) produces random data and is not modelled.
- `write_output` and `whitening` (PCA/PCA.py:165-169) are empty stubs.
- `main` (PCA/PCA.py:172-197) is the command line and a debugger breakpoint. Its order of calls is not modelled: it projects the uncentred data and never calls `sort_values`.
- The `AssertionError` for uncentred data in the docstring of `get_covariance_matrix` (PCA/PCA.py:94-97) is not implemented by the code. `GetCovarianceMatrix` accepts any matrix, as the code does.
- Floating point is not modelled: rounding, tiny negative eigenvalues caused by rounding, and complex eigenvalues that `np.linalg.eig` may return. Entries are exact reals.
- `print` in `sort_values` is modelled as the returned sequence `reported`, not as output to a stream.
- Sorting.ArgSort: weaker than numpy on purpose. It promises only a permutation in non-decreasing value order, not numpy's tie order. numpy's default introsort is not stable and its tie order is not documented. The insertion sort inside is one admissible order.
- Pca.SortValues: weaker than numpy on purpose, for the same reason. It promises only a non-increasing permutation, not which of several equal eigenvalues comes first.
- The round trip through an orthogonal eigenbasis (project, then multiply by the transpose) is not modelled. It depends on `np.linalg.eig` returning orthonormal vectors, and that code is not part of this model.
- Arrays that are not 2-D are not modelled. A CSV file with only a header line makes `read_csv_data` return `np.array([])`, of shape `(0,)` (PCA/PCA.py:52). `substract_mean` then raises `IndexError` at `mat.shape[1]` (PCA/PCA.py:71), and `get_covariance_matrix` raises `ValueError` when it unpacks the shape (PCA/PCA.py:100).
- A 2-D numpy array with zero rows still has a column count. Here that count is the field `cols`, so a `0 × k` array is represented faithfully, and both functions return `Failure(DivisionByZero)` for it.
- Ragged input (rows of different lengths) is not modelled. From numpy 1.24 on, `np.array` at PCA/PCA.py:52 raises `ValueError` for it; older versions built an object array.
