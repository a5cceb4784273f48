/**
 The density channel preprocessing of Train_NeRF_Grasp_Metric.py: raw
 density, alpha (`preprocess_to_alpha`) or the first-hit weight along x
 (`preprocess_to_weight`), chosen by `PreprocessDensityType`.

 A batch of densities is a tensor of shape (B, nx, ny, nz); its grids are
 indexed `g[x][y][z]` and a ray is the line of x values at one (y, z).
 */
module DensityPreprocess {
  import opened Outcome
  import opened RealSeqs
  import opened Compositing
  import opened NerfGrid

  // Messages of the exceptions raised below.
  const ShapeMessage := "nerf_densities.shape[-3:] == (NUM_PTS_X, NUM_PTS_Y, NUM_PTS_Z)"
  const EitherShapeMessage := "nerf_densities.shape[-3:] in ((NUM_PTS_X // 2, ...), (NUM_PTS_X, ...))"

  datatype DensityType = Density | Alpha | Weight

  /** The batch is a dense tensor of shape (B, nx, ny, nz). */
  predicate IsDensities(d: seq<Grid>, nx: nat, ny: nat, nz: nat)
  {
    forall b :: 0 <= b < |d| ==> IsGrid(d[b], nx, ny, nz)
  }

  /** The x values of the grid at (y, z) = (j, k). */
  function Ray(g: Grid, j: nat, k: nat): (r: seq<real>)
    requires forall i :: 0 <= i < |g| ==> j < |g[i]| && k < |g[i][j]|
    ensures |r| == |g|
    ensures forall i :: 0 <= i < |g| ==> r[i] == g[i][j][k]
  {
    seq(|g|, i requires 0 <= i < |g| => g[i][j][k])
  }

  /** `f` applied to every value of a grid. */
  function MapGrid(g: Grid, f: real -> real): (r: Grid)
    ensures |r| == |g|
    ensures forall i :: 0 <= i < |g| ==> |r[i]| == |g[i]|
    ensures forall i, j :: 0 <= i < |g| && 0 <= j < |g[i]| ==> |r[i][j]| == |g[i][j]|
    ensures forall i, j, k :: 0 <= i < |g| && 0 <= j < |g[i]| && 0 <= k < |g[i][j]| ==> r[i][j][k] == f(g[i][j][k])
  {
    seq(|g|, i requires 0 <= i < |g| =>
      seq(|g[i]|, j requires 0 <= j < |g[i]| =>
        seq(|g[i][j]|, k requires 0 <= k < |g[i][j]| => f(g[i][j][k]))))
  }

  lemma MapGridShape(g: Grid, f: real -> real, nx: nat, ny: nat, nz: nat)
    requires IsGrid(g, nx, ny, nz)
    ensures IsGrid(MapGrid(g, f), nx, ny, nz)
  {
  }

  /** α = 1 − exp(−Δ·σ): the probability of a collision inside one 1 mm segment. */
  function AlphaOf(exp: real -> real, sigma: real): real
  {
    1.0 - exp(-Delta * sigma)
  }

  /** `preprocess_to_alpha` on one grid; `exp` is `torch.exp`. */
  function ToAlpha(g: Grid, exp: real -> real): (r: Grid)
    ensures |r| == |g|
  {
    MapGrid(g, sigma => AlphaOf(exp, sigma))
  }

  /**
   For an `exp` that maps nonpositive arguments into (0, 1], a nonnegative
   density has an alpha in [0, 1).
   */
  lemma AlphaIsProbability(exp: real -> real, sigma: real)
    requires forall x: real :: x <= 0.0 ==> 0.0 < exp(x) <= 1.0
    requires sigma >= 0.0
    ensures 0.0 <= AlphaOf(exp, sigma) < 1.0
  {
    assert -Delta * sigma <= 0.0;
  }

  /**
   `compute_weight` along x for every (y, z): entry (i, j, k) is the weight of
   segment i of the ray at (j, k).
   */
  function WeightGrid(alpha: Grid, ny: nat, nz: nat): (w: Grid)
    requires IsGrid(alpha, |alpha|, ny, nz)
    ensures IsGrid(w, |alpha|, ny, nz)
  {
    seq(|alpha|, i requires 0 <= i < |alpha| =>
      seq(ny, j requires 0 <= j < ny =>
        seq(nz, k requires 0 <= k < nz => ComputeWeight(Ray(alpha, j, k))[i])))
  }

  /** Each ray of the weight grid is the compositing weight of the same ray of alpha. */
  lemma WeightGridRay(alpha: Grid, ny: nat, nz: nat, j: nat, k: nat)
    requires IsGrid(alpha, |alpha|, ny, nz) && j < ny && k < nz
    ensures Ray(WeightGrid(alpha, ny, nz), j, k) == ComputeWeight(Ray(alpha, j, k))
  {
  }

  /** Every value of the grid lies in [0, 1]. */
  predicate UnitGrid(g: Grid)
  {
    forall i, j, k :: 0 <= i < |g| && 0 <= j < |g[i]| && 0 <= k < |g[i][j]| ==> 0.0 <= g[i][j][k] <= 1.0
  }

  lemma UnitRay(g: Grid, ny: nat, nz: nat, j: nat, k: nat)
    requires IsGrid(g, |g|, ny, nz) && j < ny && k < nz && UnitGrid(g)
    ensures AllUnit(Ray(g, j, k))
  {
  }

  /**
   With every alpha in [0, 1], every weight is in [0, 1] and the weights of
   each ray sum to at most one.
   */
  lemma WeightGridProbabilities(alpha: Grid, ny: nat, nz: nat)
    requires IsGrid(alpha, |alpha|, ny, nz) && UnitGrid(alpha)
    ensures UnitGrid(WeightGrid(alpha, ny, nz))
    ensures forall j, k :: 0 <= j < ny && 0 <= k < nz ==> 0.0 <= Sum(Ray(WeightGrid(alpha, ny, nz), j, k)) <= 1.0
  {
    var w := WeightGrid(alpha, ny, nz);
    forall j, k | 0 <= j < ny && 0 <= k < nz
      ensures AllUnit(Ray(w, j, k))
      ensures 0.0 <= Sum(Ray(w, j, k)) <= 1.0
    {
      UnitRay(alpha, ny, nz, j, k);
      WeightGridRay(alpha, ny, nz, j, k);
      WeightsAreProbabilities(Ray(alpha, j, k));
      WeightsSumAtMostOne(Ray(alpha, j, k));
    }
    forall i, j, k | 0 <= i < |w| && 0 <= j < |w[i]| && 0 <= k < |w[i][j]|
      ensures 0.0 <= w[i][j][k] <= 1.0
    {
      assert Ray(w, j, k)[i] == w[i][j][k];
    }
  }

  /** `preprocess_to_weight` on one grid: alpha, then the compositing weight along x. */
  function WeightOf(g: Grid, ny: nat, nz: nat, exp: real -> real): (w: Grid)
    requires IsGrid(g, |g|, ny, nz)
    ensures IsGrid(w, |g|, ny, nz)
  {
    MapGridShape(g, sigma => AlphaOf(exp, sigma), |g|, ny, nz);
    WeightGrid(ToAlpha(g, exp), ny, nz)
  }

  /** `WeightOf` on every grid of a batch. */
  function WeightBatch(d: seq<Grid>, nx: nat, ny: nat, nz: nat, exp: real -> real): (r: seq<Grid>)
    requires IsDensities(d, nx, ny, nz)
    ensures |r| == |d| && IsDensities(r, nx, ny, nz)
    ensures forall b :: 0 <= b < |d| ==> r[b] == WeightOf(d[b], ny, nz, exp)
  {
    seq(|d|, b requires 0 <= b < |d| => WeightOf(d[b], ny, nz, exp))
  }

  /**
   `preprocess_to_weight` as written: it asserts that the last three
   dimensions are (83, 21, 37), the shape of a whole grid.
   */
  function PreprocessToWeightAsWritten(d: seq<Grid>, nx: nat, ny: nat, nz: nat, exp: real -> real): (r: Result<seq<Grid>>)
    requires IsDensities(d, nx, ny, nz)
    ensures r.Ok? <==> nx == NumPtsX && ny == NumPtsY && nz == NumPtsZ
    ensures r.Err? ==> r.error.AssertionError?
    ensures r.Ok? ==> r.value == WeightBatch(d, nx, ny, nz, exp)
  {
    var _ :- Check(nx == NumPtsX && ny == NumPtsY && nz == NumPtsZ, ShapeMessage);
    Ok(WeightBatch(d, nx, ny, nz, exp))
  }

  /** The 41-wide halves the pipeline produces never pass the assertion. */
  lemma WeightAsWrittenRejectsHalves(d: seq<Grid>, exp: real -> real)
    requires IsDensities(d, NumPtsPerSide, NumPtsY, NumPtsZ)
    ensures PreprocessToWeightAsWritten(d, NumPtsPerSide, NumPtsY, NumPtsZ, exp) == Err(AssertionError(ShapeMessage))
  {
  }

  /**
   `preprocess_to_weight` accepting the x extents that
   `get_nerf_densities_and_points` accepts: a half (41) or a whole grid (83).
   */
  function PreprocessToWeight(d: seq<Grid>, nx: nat, ny: nat, nz: nat, exp: real -> real): (r: Result<seq<Grid>>)
    requires IsDensities(d, nx, ny, nz)
    ensures r.Ok? <==> (nx == NumPtsPerSide || nx == NumPtsX) && ny == NumPtsY && nz == NumPtsZ
    ensures r.Ok? ==> r.value == WeightBatch(d, nx, ny, nz, exp)
  {
    var _ :- Check((nx == NumPtsPerSide || nx == NumPtsX) && ny == NumPtsY && nz == NumPtsZ, EitherShapeMessage);
    Ok(WeightBatch(d, nx, ny, nz, exp))
  }

  /**
   The corrected weight preprocessing turns every nonnegative density grid
   into first-hit probabilities whose sum along each ray is at most one.
   */
  lemma PreprocessToWeightProbabilities(d: seq<Grid>, nx: nat, ny: nat, nz: nat, exp: real -> real, b: nat)
    requires IsDensities(d, nx, ny, nz) && PreprocessToWeight(d, nx, ny, nz, exp).Ok? && b < |d|
    requires forall x: real :: x <= 0.0 ==> 0.0 < exp(x) <= 1.0
    requires forall i, j, k :: 0 <= i < nx && 0 <= j < ny && 0 <= k < nz ==> d[b][i][j][k] >= 0.0
    ensures var w := PreprocessToWeight(d, nx, ny, nz, exp).value[b];
      UnitGrid(w) && forall j, k :: 0 <= j < ny && 0 <= k < nz ==> 0.0 <= Sum(Ray(w, j, k)) <= 1.0
  {
    var alpha := ToAlpha(d[b], exp);
    MapGridShape(d[b], sigma => AlphaOf(exp, sigma), nx, ny, nz);
    forall i, j, k | 0 <= i < |alpha| && 0 <= j < |alpha[i]| && 0 <= k < |alpha[i][j]|
      ensures 0.0 <= alpha[i][j][k] <= 1.0
    {
      AlphaIsProbability(exp, d[b][i][j][k]);
    }
    WeightGridProbabilities(alpha, ny, nz);
  }

  /** `preprocess_type_to_fn[type]` applied to a batch, with the weight function as written. */
  function PreprocessDensitiesAsWritten(t: DensityType, d: seq<Grid>, nx: nat, ny: nat, nz: nat, exp: real -> real): (r: Result<seq<Grid>>)
    requires IsDensities(d, nx, ny, nz)
    ensures t == Density ==> r == Ok(d)
    ensures t == Alpha ==> r == Ok(seq(|d|, b requires 0 <= b < |d| => ToAlpha(d[b], exp)))
    ensures t == Weight ==> r == PreprocessToWeightAsWritten(d, nx, ny, nz, exp)
  {
    match t
    case Density => Ok(d)
    case Alpha => Ok(seq(|d|, b requires 0 <= b < |d| => ToAlpha(d[b], exp)))
    case Weight => PreprocessToWeightAsWritten(d, nx, ny, nz, exp)
  }

  /** The same choice with the corrected weight function. */
  function PreprocessDensities(t: DensityType, d: seq<Grid>, nx: nat, ny: nat, nz: nat, exp: real -> real): (r: Result<seq<Grid>>)
    requires IsDensities(d, nx, ny, nz)
    ensures t != Weight ==> r == PreprocessDensitiesAsWritten(t, d, nx, ny, nz, exp)
    ensures t == Weight ==> r == PreprocessToWeight(d, nx, ny, nz, exp)
    ensures r.Ok? <==> t != Weight || ((nx == NumPtsPerSide || nx == NumPtsX) && ny == NumPtsY && nz == NumPtsZ)
    ensures r.Ok? ==> |r.value| == |d| && IsDensities(r.value, nx, ny, nz)
  {
    match t
    case Density => Ok(d)
    case Alpha =>
      assert forall b :: 0 <= b < |d| ==> IsGrid(ToAlpha(d[b], exp), nx, ny, nz) by {
        forall b | 0 <= b < |d| ensures IsGrid(ToAlpha(d[b], exp), nx, ny, nz) {
          MapGridShape(d[b], sigma => AlphaOf(exp, sigma), nx, ny, nz);
        }
      }
      Ok(seq(|d|, b requires 0 <= b < |d| => ToAlpha(d[b], exp)))
    case Weight => PreprocessToWeight(d, nx, ny, nz, exp)
  }
}
