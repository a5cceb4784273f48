/**
 `preprocess_nerf_grid_inputs` and `get_nerf_densities_and_points`
 (Train_NeRF_Grasp_Metric.py): a batch of full NeRF grids becomes, for each
 of the two halves, a batch of preprocessed densities and one row of frame
 vectors per example.

 The model keeps the source's order of steps: shape check, split, flip,
 frames, density preprocessing, invariance transformation, final shape checks
 and concatenation. It comes in two versions: as written, and with the two
 defective steps (weight preprocessing and the invariance return value)
 corrected.
 */
module GridPipeline {
  import opened Outcome
  import opened NerfGrid
  import opened GlobalFrames
  import opened DensityPreprocess
  import opened Invariance

  // Messages of the exceptions raised below.
  const InputShapeMessage := "nerf_grid_inputs.shape == (batch_size, *INPUT_EXAMPLE_SHAPE)"
  const ParamCountMessage := "len(left_global_params) == len(right_global_params)"
  const ParamShapeMessage := "param.shape == (batch_size, NUM_XYZ)"
  const TooManyMessage := "too many values to unpack (expected 2)"

  /** One entry of the returned list: the densities of a half and its frame rows. */
  datatype Side = Side(densities: seq<Grid>, globalParams: seq<seq<real>>)

  /** Channel 3 of every example. */
  function DensitiesOf(inputs: seq<Example>): (d: seq<Grid>)
    requires forall b :: 0 <= b < |inputs| ==> |inputs[b]| == NumChannels
    ensures |d| == |inputs|
    ensures forall b :: 0 <= b < |inputs| ==> d[b] == inputs[b][DensityChannel]
  {
    seq(|inputs|, b requires 0 <= b < |inputs| => inputs[b][DensityChannel])
  }

  /** Channels 0..2 of every example. */
  function PointsOf(inputs: seq<Example>): (p: seq<Example>)
    requires forall b :: 0 <= b < |inputs| ==> |inputs[b]| == NumChannels
    ensures |p| == |inputs|
    ensures forall b :: 0 <= b < |inputs| ==> p[b] == inputs[b][..NumXyz]
  {
    seq(|inputs|, b requires 0 <= b < |inputs| => inputs[b][..NumXyz])
  }

  lemma DensitiesAndPointsShape(inputs: seq<Example>, nx: nat)
    requires IsBatch(inputs, nx)
    ensures IsDensities(DensitiesOf(inputs), nx, NumPtsY, NumPtsZ)
    ensures forall b :: 0 <= b < |inputs| ==> IsPoints(PointsOf(inputs)[b], nx)
  {
  }

  /**
   `get_nerf_densities_and_points`: accepts a batch whose x extent is a half
   (41) or a whole grid (83) and separates density from coordinates.
   */
  function DensitiesAndPoints(inputs: seq<Example>): (r: Result<(seq<Grid>, seq<Example>)>)
    ensures r.Ok? <==> IsBatch(inputs, NumPtsPerSide) || IsBatch(inputs, NumPtsX)
    ensures r.Ok? ==> r.value == (DensitiesOf(inputs), PointsOf(inputs))
  {
    var _ :- Check(IsBatch(inputs, NumPtsPerSide) || IsBatch(inputs, NumPtsX), "nerf_grid_inputs.shape");
    Ok((DensitiesOf(inputs), PointsOf(inputs)))
  }

  /** The left and right half of every example. */
  function SplitBatch(batch: seq<Example>): (r: (seq<Example>, seq<Example>))
    ensures |r.0| == |batch| && |r.1| == |batch|
    ensures forall b :: 0 <= b < |batch| ==> r.0[b] == LeftHalf(batch[b]) && r.1[b] == RightHalf(batch[b])
    ensures IsBatch(batch, NumPtsX) ==> IsBatch(r.0, NumPtsPerSide) && IsBatch(r.1, NumPtsPerSide)
  {
    (seq(|batch|, b requires 0 <= b < |batch| => LeftHalf(batch[b])),
     seq(|batch|, b requires 0 <= b < |batch| => RightHalf(batch[b])))
  }

  /** `flip_left_right_randomly`: None leaves the halves alone; Some(mask) swaps them per example. */
  function FlipSides<T>(flip: Option<seq<bool>>, a: seq<T>, b: seq<T>): (r: (seq<T>, seq<T>))
    requires |a| == |b|
    requires flip.Some? ==> |flip.value| == |a|
    ensures |r.0| == |a| && |r.1| == |a|
  {
    if flip.Some? then SwapWhere(flip.value, a, b) else (a, b)
  }

  /** Whatever holds of every element of both halves still holds after the flip. */
  lemma FlipSidesKeeps<T>(flip: Option<seq<bool>>, a: seq<T>, b: seq<T>, P: T -> bool)
    requires |a| == |b|
    requires flip.Some? ==> |flip.value| == |a|
    requires forall i :: 0 <= i < |a| ==> P(a[i]) && P(b[i])
    ensures forall i :: 0 <= i < |a| ==> P(FlipSides(flip, a, b).0[i]) && P(FlipSides(flip, a, b).1[i])
  {
  }

  /** The state after the steps both versions share. */
  datatype Halves = Halves(leftDensities: seq<Grid>, rightDensities: seq<Grid>, leftParams: Params, rightParams: Params)

  predicate HalvesFit(h: Halves, n: nat)
  {
    |h.leftDensities| == n && |h.rightDensities| == n &&
    IsDensities(h.leftDensities, NumPtsPerSide, NumPtsY, NumPtsZ) &&
    IsDensities(h.rightDensities, NumPtsPerSide, NumPtsY, NumPtsZ) &&
    |h.leftParams| == 3 && |h.rightParams| == 3 &&
    SameBatch(h.leftParams, n) && SameBatch(h.rightParams, n)
  }

  /** The densities and points of both halves, after the optional flip. */
  function FlippedHalves(batch: seq<Example>, flip: Option<seq<bool>>): (r: (seq<Grid>, seq<Grid>, seq<Example>, seq<Example>))
    requires IsBatch(batch, NumPtsX)
    requires flip.Some? ==> |flip.value| == |batch|
    ensures |r.0| == |batch| && |r.1| == |batch| && |r.2| == |batch| && |r.3| == |batch|
    ensures IsDensities(r.0, NumPtsPerSide, NumPtsY, NumPtsZ) && IsDensities(r.1, NumPtsPerSide, NumPtsY, NumPtsZ)
    ensures forall b :: 0 <= b < |batch| ==> IsPoints(r.2[b], NumPtsPerSide) && IsPoints(r.3[b], NumPtsPerSide)
  {
    var (left, right) := SplitBatch(batch);
    DensitiesAndPointsShape(left, NumPtsPerSide);
    DensitiesAndPointsShape(right, NumPtsPerSide);
    var (ld, rd) := FlipSides(flip, DensitiesOf(left), DensitiesOf(right));
    var (lp, rp) := FlipSides(flip, PointsOf(left), PointsOf(right));
    FlipSidesKeeps(flip, DensitiesOf(left), DensitiesOf(right), g => IsGrid(g, NumPtsPerSide, NumPtsY, NumPtsZ));
    FlipSidesKeeps(flip, PointsOf(left), PointsOf(right), p => IsPoints(p, NumPtsPerSide));
    (ld, rd, lp, rp)
  }

  /** Shape check, split, `get_nerf_densities_and_points`, flip and `get_global_params` for both halves. */
  function SplitFlipFrames(batch: seq<Example>, flip: Option<seq<bool>>, normalize: Vec3 -> Vec3): (r: Result<Halves>)
    requires flip.Some? ==> |flip.value| == |batch|
    ensures r.Ok? ==> IsBatch(batch, NumPtsX) && HalvesFit(r.value, |batch|)
    ensures r.Ok? <==> (IsBatch(batch, NumPtsX) &&
                        GetGlobalParams(FlippedHalves(batch, flip).2, normalize).Ok? &&
                        GetGlobalParams(FlippedHalves(batch, flip).3, normalize).Ok?)
    ensures r.Ok? ==>
      r.value.leftDensities == FlippedHalves(batch, flip).0 &&
      r.value.rightDensities == FlippedHalves(batch, flip).1 &&
      r.value.leftParams == GetGlobalParams(FlippedHalves(batch, flip).2, normalize).value &&
      r.value.rightParams == GetGlobalParams(FlippedHalves(batch, flip).3, normalize).value
  {
    var _ :- Check(IsBatch(batch, NumPtsX), InputShapeMessage);
    var (left, right) := SplitBatch(batch);
    // both halves always pass the shape assertion of `get_nerf_densities_and_points`
    assert DensitiesAndPoints(left).Ok? && DensitiesAndPoints(right).Ok?;
    var (ld, rd, lp, rp) := FlippedHalves(batch, flip);
    var lg :- GetGlobalParams(lp, normalize);
    var rg :- GetGlobalParams(rp, normalize);
    Ok(Halves(ld, rd, lg, rg))
  }

  /** The final assertions and `torch.cat(params, dim=1)` for both halves. */
  function Assemble(ldens: seq<Grid>, rdens: seq<Grid>, lg: Params, rg: Params, n: nat): (r: Result<(Side, Side)>)
    ensures r.Ok? <==> |lg| == |rg| && SameBatch(lg, n) && SameBatch(rg, n)
    ensures r.Ok? ==> r.value.0.densities == ldens && r.value.1.densities == rdens
    ensures r.Ok? ==> |r.value.0.globalParams| == n && |r.value.1.globalParams| == n
    ensures r.Ok? ==> forall b :: 0 <= b < n ==>
      r.value.0.globalParams[b] == CatRow(lg, b) && r.value.1.globalParams[b] == CatRow(rg, b)
  {
    var _ :- Check(|lg| == |rg|, ParamCountMessage);
    var _ :- Check(SameBatch(lg, n) && SameBatch(rg, n), ParamShapeMessage);
    Ok((Side(ldens, Cat(lg, n)), Side(rdens, Cat(rg, n))))
  }

  /**
   The invariance step as written. `invariance_transformation` raises
   before it returns (`AsWrittenFailsInTransform`), so the unpacking of its
   result is never reached.
   */
  function InvarianceStepAsWritten(lg: Params, rg: Params, invariance: Option<Options>, rots: Rotations): (r: Result<(Params, Params)>)
    ensures invariance.None? ==> r == Ok((lg, rg))
    ensures invariance.Some? ==> r.Err?
  {
    if invariance.None? then Ok((lg, rg))
    else Err(InvarianceTransformationAsWritten(lg, rg, invariance.value, rots).error)
  }

  /** The invariance step with the corrected transformation. */
  function InvarianceStep(lg: Params, rg: Params, invariance: Option<Options>, rots: Rotations): (r: Result<(Params, Params)>)
    requires invariance.Some? && |lg| > 0 ==> MaskFits(invariance.value, |lg[0]|)
    ensures invariance.None? ==> r == Ok((lg, rg))
    ensures invariance.Some? ==> r == InvarianceTransformation(lg, rg, invariance.value, rots)
  {
    if invariance.None? then Ok((lg, rg))
    else InvarianceTransformation(lg, rg, invariance.value, rots)
  }

  /** Density preprocessing, invariance step and assembly, as written, on halves that passed the shared steps. */
  function FinishAsWritten(h: Halves, n: nat, t: DensityType, invariance: Option<Options>,
                           exp: real -> real, rots: Rotations): (r: Result<(Side, Side)>)
    requires HalvesFit(h, n)
    requires invariance.Some? ==> MaskFits(invariance.value, n)
  {
    var ldens :- PreprocessDensitiesAsWritten(t, h.leftDensities, NumPtsPerSide, NumPtsY, NumPtsZ, exp);
    var rdens :- PreprocessDensitiesAsWritten(t, h.rightDensities, NumPtsPerSide, NumPtsY, NumPtsZ, exp);
    var (lg, rg) :- InvarianceStepAsWritten(h.leftParams, h.rightParams, invariance, rots);
    Assemble(ldens, rdens, lg, rg, n)
  }

  /** The same steps with the weight preprocessing and the invariance return corrected. */
  function Finish(h: Halves, n: nat, t: DensityType, invariance: Option<Options>,
                  exp: real -> real, rots: Rotations): (r: Result<(Side, Side)>)
    requires HalvesFit(h, n)
    requires invariance.Some? ==> MaskFits(invariance.value, n)
  {
    var ldens :- PreprocessDensities(t, h.leftDensities, NumPtsPerSide, NumPtsY, NumPtsZ, exp);
    var rdens :- PreprocessDensities(t, h.rightDensities, NumPtsPerSide, NumPtsY, NumPtsZ, exp);
    var (lg, rg) :- InvarianceStep(h.leftParams, h.rightParams, invariance, rots);
    Assemble(ldens, rdens, lg, rg, n)
  }

  /**
   `preprocess_nerf_grid_inputs` as written. `flip` is the drawn mask of
   `flip_left_right_randomly` (None when off), `invariance` the options of
   `add_invariance_transformations` (None when off); `exp`, `normalize` and
   `rots` stand for the numeric functions the source calls.
   */
  function PreprocessNerfGridInputsAsWritten(
    batch: seq<Example>, flip: Option<seq<bool>>, t: DensityType, invariance: Option<Options>,
    exp: real -> real, normalize: Vec3 -> Vec3, rots: Rotations): (r: Result<(Side, Side)>)
    requires flip.Some? ==> |flip.value| == |batch|
    requires invariance.Some? ==> MaskFits(invariance.value, |batch|)
  {
    var h :- SplitFlipFrames(batch, flip, normalize);
    FinishAsWritten(h, |batch|, t, invariance, exp, rots)
  }

  /** `preprocess_nerf_grid_inputs` with the weight preprocessing and the invariance return corrected. */
  function PreprocessNerfGridInputs(
    batch: seq<Example>, flip: Option<seq<bool>>, t: DensityType, invariance: Option<Options>,
    exp: real -> real, normalize: Vec3 -> Vec3, rots: Rotations): (r: Result<(Side, Side)>)
    requires flip.Some? ==> |flip.value| == |batch|
    requires invariance.Some? ==> MaskFits(invariance.value, |batch|)
  {
    var h :- SplitFlipFrames(batch, flip, normalize);
    Finish(h, |batch|, t, invariance, exp, rots)
  }

  /** Choosing WEIGHT makes the pipeline as written fail on every input. */
  lemma AsWrittenWeightAlwaysFails(
    batch: seq<Example>, flip: Option<seq<bool>>, invariance: Option<Options>,
    exp: real -> real, normalize: Vec3 -> Vec3, rots: Rotations)
    requires flip.Some? ==> |flip.value| == |batch|
    requires invariance.Some? ==> MaskFits(invariance.value, |batch|)
    ensures PreprocessNerfGridInputsAsWritten(batch, flip, Weight, invariance, exp, normalize, rots).Err?
  {
  }

  /** Turning on the invariance transformations makes the pipeline as written fail on every input. */
  lemma AsWrittenInvarianceAlwaysFails(
    batch: seq<Example>, flip: Option<seq<bool>>, t: DensityType, opts: Options,
    exp: real -> real, normalize: Vec3 -> Vec3, rots: Rotations)
    requires flip.Some? ==> |flip.value| == |batch|
    requires MaskFits(opts, |batch|)
    ensures PreprocessNerfGridInputsAsWritten(batch, flip, t, Some(opts), exp, normalize, rots).Err?
  {
  }

  /** Off the two defective paths, the corrected pipeline computes exactly what the original does. */
  lemma CorrectedAgreesOffDefects(
    batch: seq<Example>, flip: Option<seq<bool>>, t: DensityType,
    exp: real -> real, normalize: Vec3 -> Vec3, rots: Rotations)
    requires flip.Some? ==> |flip.value| == |batch|
    requires t != Weight
    ensures PreprocessNerfGridInputs(batch, flip, t, None, exp, normalize, rots)
         == PreprocessNerfGridInputsAsWritten(batch, flip, t, None, exp, normalize, rots)
  {
  }

  /**
   With halves of the right shape whose left origins pass the `isclose`
   checks, the corrected invariance step succeeds and keeps the batch size.
   */
  lemma InvarianceStepSucceeds(h: Halves, n: nat, invariance: Option<Options>, rots: Rotations)
    requires HalvesFit(h, n)
    requires invariance.Some? ==> MaskFits(invariance.value, n)
    requires invariance.Some? ==> LevelChecksPass(h.leftParams[0], invariance.value.rotatePolar, rots)
    ensures var r := InvarianceStep(h.leftParams, h.rightParams, invariance, rots);
      var width := if invariance.Some? && invariance.value.removeYAxis then 2 else 3;
      r.Ok? && |r.value.0| == width && |r.value.1| == width &&
      SameBatch(r.value.0, n) && SameBatch(r.value.1, n)
  {
    if invariance.Some? {
      CorrectedSucceedsIff(h.leftParams, h.rightParams, invariance.value, rots);
    }
  }

  /** Every assembled row has three values per vector of the tuple. */
  lemma AssembleWidths(ldens: seq<Grid>, rdens: seq<Grid>, lg: Params, rg: Params, n: nat)
    requires |lg| == |rg| && SameBatch(lg, n) && SameBatch(rg, n)
    ensures var r := Assemble(ldens, rdens, lg, rg, n);
      r.Ok? && forall b :: 0 <= b < n ==>
        |r.value.0.globalParams[b]| == 3 * |lg| && |r.value.1.globalParams[b]| == 3 * |lg|
  {
  }

  /**
   On halves that passed the shared steps and, with the invariance step on,
   the `isclose` checks, the corrected steps always succeed; they keep the
   density shapes and produce 9 frame values per example (6 when the y axes
   are removed).
   */
  lemma FinishSucceeds(h: Halves, n: nat, t: DensityType, invariance: Option<Options>,
                       exp: real -> real, rots: Rotations)
    requires HalvesFit(h, n)
    requires invariance.Some? ==> MaskFits(invariance.value, n)
    requires invariance.Some? ==> LevelChecksPass(h.leftParams[0], invariance.value.rotatePolar, rots)
    ensures var r := Finish(h, n, t, invariance, exp, rots);
      var width := if invariance.Some? && invariance.value.removeYAxis then 6 else 9;
      r.Ok? &&
      |r.value.0.densities| == n && |r.value.1.densities| == n &&
      IsDensities(r.value.0.densities, NumPtsPerSide, NumPtsY, NumPtsZ) &&
      IsDensities(r.value.1.densities, NumPtsPerSide, NumPtsY, NumPtsZ) &&
      |r.value.0.globalParams| == n && |r.value.1.globalParams| == n &&
      forall b :: 0 <= b < n ==> |r.value.0.globalParams[b]| == width && |r.value.1.globalParams[b]| == width
  {
    InvarianceStepSucceeds(h, n, invariance, rots);
    var inv := InvarianceStep(h.leftParams, h.rightParams, invariance, rots).value;
    var ldens := PreprocessDensities(t, h.leftDensities, NumPtsPerSide, NumPtsY, NumPtsZ, exp).value;
    var rdens := PreprocessDensities(t, h.rightDensities, NumPtsPerSide, NumPtsY, NumPtsZ, exp).value;
    AssembleWidths(ldens, rdens, inv.0, inv.1, n);
  }

  /**
   The corrected pipeline succeeds exactly when the input has the full grid
   shape, both frames pass the z-axis check and, with the invariance step
   on, the left origins pass the `isclose` checks; its result is then that
   of the remaining steps, which `FinishSucceeds` describes.
   */
  lemma CorrectedSucceeds(
    batch: seq<Example>, flip: Option<seq<bool>>, t: DensityType, invariance: Option<Options>,
    exp: real -> real, normalize: Vec3 -> Vec3, rots: Rotations)
    requires flip.Some? ==> |flip.value| == |batch|
    requires invariance.Some? ==> MaskFits(invariance.value, |batch|)
    ensures PreprocessNerfGridInputs(batch, flip, t, invariance, exp, normalize, rots).Ok?
        <==> SplitFlipFrames(batch, flip, normalize).Ok? &&
             (invariance.Some? ==>
                LevelChecksPass(SplitFlipFrames(batch, flip, normalize).value.leftParams[0], invariance.value.rotatePolar, rots))
  {
    var h := SplitFlipFrames(batch, flip, normalize);
    if h.Ok? {
      FinishOkIff(h.value, |batch|, t, invariance, exp, rots);
    }
  }

  /** On halves that passed the shared steps, the corrected steps fail exactly on the `isclose` checks. */
  lemma FinishOkIff(h: Halves, n: nat, t: DensityType, invariance: Option<Options>,
                    exp: real -> real, rots: Rotations)
    requires HalvesFit(h, n)
    requires invariance.Some? ==> MaskFits(invariance.value, n)
    ensures Finish(h, n, t, invariance, exp, rots).Ok?
        <==> invariance.Some? ==> LevelChecksPass(h.leftParams[0], invariance.value.rotatePolar, rots)
  {
    if invariance.None? || LevelChecksPass(h.leftParams[0], invariance.value.rotatePolar, rots) {
      FinishSucceeds(h, n, t, invariance, exp, rots);
    } else {
      CorrectedSucceedsIff(h.leftParams, h.rightParams, invariance.value, rots);
    }
  }

  /**
   Without flip or invariance and with raw densities, the left densities are
   x-slices 0..40 of the input and the right ones the mirror image of slices
   42..82 in x and y.
   */
  lemma DensitiesWithoutFlip(
    batch: seq<Example>, exp: real -> real, normalize: Vec3 -> Vec3, rots: Rotations,
    b: nat, i: nat, j: nat, k: nat)
    requires PreprocessNerfGridInputs(batch, None, Density, None, exp, normalize, rots).Ok?
    requires b < |batch| && i < NumPtsPerSide && j < NumPtsY && k < NumPtsZ
    ensures SplitFlipFrames(batch, None, normalize).Ok?
    ensures IsExample(batch[b], NumPtsX)
    ensures var r := PreprocessNerfGridInputs(batch, None, Density, None, exp, normalize, rots).value;
      r.0.densities[b][i][j][k] == batch[b][DensityChannel][i][j][k] &&
      r.1.densities[b][i][j][k] == batch[b][DensityChannel][82 - i][20 - j][k]
  {
    LeftHalfAt(batch[b], DensityChannel, i, j, k);
    RightHalfAt(batch[b], DensityChannel, i, j, k);
  }

  /**
   The flip mask exchanges the halves of exactly the masked examples, before
   any later step looks at them.
   */
  lemma FlipExchangesHalves(batch: seq<Example>, mask: seq<bool>, b: nat)
    requires IsBatch(batch, NumPtsX) && |mask| == |batch| && b < |batch|
    ensures var flipped := FlippedHalves(batch, Some(mask));
      var plain := FlippedHalves(batch, None);
      (mask[b] ==> flipped.0[b] == plain.1[b] && flipped.1[b] == plain.0[b] &&
                   flipped.2[b] == plain.3[b] && flipped.3[b] == plain.2[b]) &&
      (!mask[b] ==> flipped.0[b] == plain.0[b] && flipped.1[b] == plain.1[b] &&
                    flipped.2[b] == plain.2[b] && flipped.3[b] == plain.3[b])
  {
  }
}
