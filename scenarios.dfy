/**
 * A worked scenario: four samples at the corners of a square,
 * `(0,0), (2,0), (0,2), (2,2)`, have column means `(1,1)`, centre to
 * `(±1, ±1)`, and have the identity as covariance matrix.
 */
module Scenarios {
  import opened Matrices
  import opened Pca

  /** The four samples, one per row. */
  const Samples := Matrix(4, 2, [[0.0, 0.0], [2.0, 0.0], [0.0, 2.0], [2.0, 2.0]])
  /** The same samples with the column means `(1,1)` subtracted. */
  const CenteredSamples := Matrix(4, 2, [[-1.0, -1.0], [1.0, -1.0], [-1.0, 1.0], [1.0, 1.0]])

  /** Centering the four samples subtracts `(1,1)` from each. */
  lemma FourSamplesCentered()
    ensures Samples.Valid() && Samples.rows > 0 && Centered(Samples) == CenteredSamples
  {
    var m := Samples;
    var c := CenteredSamples;
    assert |m.data| == 4 && |m.data[0]| == |m.data[1]| == |m.data[2]| == |m.data[3]| == 2;
    assert m.Valid();
    assert Column(m, 0) == [0.0, 2.0, 0.0, 2.0];
    assert Column(m, 1) == [0.0, 0.0, 2.0, 2.0];
    assert Sum([0.0, 2.0, 0.0, 2.0]) == 4.0 by {
      assert [0.0, 2.0, 0.0, 2.0][..3] == [0.0, 2.0, 0.0];
      assert [0.0, 2.0, 0.0][..2] == [0.0, 2.0];
      assert [0.0, 2.0][..1] == [0.0];
    }
    assert Sum([0.0, 0.0, 2.0, 2.0]) == 4.0 by {
      assert [0.0, 0.0, 2.0, 2.0][..3] == [0.0, 0.0, 2.0];
      assert [0.0, 0.0, 2.0][..2] == [0.0, 0.0];
      assert [0.0, 0.0][..1] == [0.0];
    }
    forall i | 0 <= i < 4
      ensures Centered(m).data[i] == c.data[i]
    {
      assert |c.data[i]| == 2;
    }
    assert Centered(m).data == c.data;
  }

  /** The inner products of the two centred columns with each other and themselves. */
  lemma CenteredColumnDots()
    ensures Dot([-1.0, 1.0, -1.0, 1.0], [-1.0, 1.0, -1.0, 1.0]) == 4.0
    ensures Dot([-1.0, -1.0, 1.0, 1.0], [-1.0, -1.0, 1.0, 1.0]) == 4.0
    ensures Dot([-1.0, 1.0, -1.0, 1.0], [-1.0, -1.0, 1.0, 1.0]) == 0.0
    ensures Dot([-1.0, -1.0, 1.0, 1.0], [-1.0, 1.0, -1.0, 1.0]) == 0.0
  {
    var c0 := [-1.0, 1.0, -1.0, 1.0];
    var c1 := [-1.0, -1.0, 1.0, 1.0];
    assert c0[..3] == [-1.0, 1.0, -1.0];
    assert c0[..3][..2] == [-1.0, 1.0];
    assert c0[..3][..2][..1] == [-1.0];
    assert c1[..3] == [-1.0, -1.0, 1.0];
    assert c1[..3][..2] == [-1.0, -1.0];
    assert c1[..3][..2][..1] == [-1.0];
    assert Dot([-1.0], [-1.0]) == 1.0;
    assert Dot([-1.0, 1.0], [-1.0, 1.0]) == 2.0;
    assert Dot([-1.0, 1.0, -1.0], [-1.0, 1.0, -1.0]) == 3.0;
    DotSymmetric(c0, c1);
  }

  /** The centred samples have unit variances and no covariance. */
  lemma FourSamplesCovariance()
    ensures CenteredSamples.Valid() && GetCovarianceMatrix(CenteredSamples) == Success(Identity(2))
  {
    var c := CenteredSamples;
    assert |c.data| == 4 && |c.data[0]| == |c.data[1]| == |c.data[2]| == |c.data[3]| == 2;
    assert c.Valid();
    assert Column(c, 0) == [-1.0, 1.0, -1.0, 1.0];
    assert Column(c, 1) == [-1.0, -1.0, 1.0, 1.0];
    CenteredColumnDots();
    var cov := GetCovarianceMatrix(c).value;
    forall i | 0 <= i < 2
      ensures cov.data[i] == Identity(2).data[i]
    {
    }
    assert cov.data == Identity(2).data;
  }

  /** Centering then covariance turns the four samples into the identity. */
  lemma FourSamplesPipeline()
    ensures Samples.Valid() && Samples.rows > 0
    ensures GetCovarianceMatrix(Centered(Samples)) == Success(Identity(2))
  {
    FourSamplesCentered();
    FourSamplesCovariance();
  }
}
