/**
 `invariance_transformation` (Train_NeRF_Grasp_Metric.py): the frame vectors
 of both halves are rotated about z so that each left origin lands in the xz
 plane, optionally rotated about y so that it lands on the x axis, optionally
 mirrored in the xz plane per batch element, and optionally stripped of their
 y axes.

 The rotations need `atan2`, `cos` and `sin`; the model takes each as a
 `Rotation` parameter that, given the left origin of a batch element, returns
 the map applied to every vector of that element.
 */
module Invariance {
  import opened Outcome
  import opened GlobalFrames

  // Messages of the exceptions raised below.
  const LeftUnpackMessage := "left_global_params does not unpack into three values"
  const RightUnpackMessage := "right_global_params does not unpack into three values"
  const VectorShapeMessage := "all six vectors have shape (batch_size, NUM_XYZ)"
  const ScalarMessage := "only one element tensors can be converted to Python scalars"
  const CatMessage := "Tensors must have same number of dimensions: got 2 and 1"
  const OnXzMessage := "every left origin has y close to 0"
  const OnXMessage := "every left origin has z close to 0"
  const NotEnoughMessage := "not enough values to unpack (expected 2)"
  const TooManyMessage := "too many values to unpack (expected 2)"

  /**
   `rotatePolar` is the `rotate_polar_angle` flag; `reflect` is None when
   `reflect_around_xz_plane_randomly` is off, and otherwise the drawn mask
   `torch.rand(B) > 0.5`.
   */
  datatype Options = Options(rotatePolar: bool, reflect: Option<seq<bool>>, removeYAxis: bool)

  type Rotation = Vec3 -> (Vec3 -> Vec3)

  /** The rotation about z (by minus the azimuth) and the one about y (by the polar angle's complement). */
  datatype Rotations = Rotations(aroundZ: Rotation, aroundY: Rotation)

  /** `torch.isclose(a, 0)` with the default tolerances: the relative term vanishes against zero. */
  const Atol: real := 0.00000001

  predicate IsCloseToZero(a: real)
  {
    -Atol <= a <= Atol
  }

  /** Every tensor of the tuple has batch size n. */
  predicate SameBatch(p: Params, n: nat)
  {
    forall t :: 0 <= t < |p| ==> |p[t]| == n
  }

  /** The shapes the source unpacks and asserts: three tensors per half, all (B, 3) with B from the left origin. */
  predicate Shaped(left: Params, right: Params)
  {
    |left| == 3 && |right| == 3 && SameBatch(left, |left[0]|) && SameBatch(right, |left[0]|)
  }

  /** The reflection mask, if any, has one entry per batch element. */
  predicate MaskFits(opts: Options, n: nat)
  {
    opts.reflect.Some? ==> |opts.reflect.value| == n
  }

  /** The unpacking of both arguments and the shape assertion; on success, the batch size. */
  function CheckShapes(left: Params, right: Params): (r: Result<nat>)
    ensures r.Ok? <==> Shaped(left, right)
    ensures r.Ok? ==> r.value == |left[0]|
    ensures r.Err? && (|left| != 3 || |right| != 3) ==> r.error.ValueError?
    ensures r.Err? && |left| == 3 && |right| == 3 ==> r.error == AssertionError(VectorShapeMessage)
  {
    var _ :- Need(|left| == 3, ValueError(LeftUnpackMessage));
    var _ :- Need(|right| == 3, ValueError(RightUnpackMessage));
    var n := |left[0]|;
    var _ :- Check(SameBatch(left, n) && SameBatch(right, n), VectorShapeMessage);
    Ok(n)
  }

  /** Every vector of batch element b mapped by the rotation chosen from that element's left origin. */
  function Rotate(p: Params, leftOrigin: seq<Vec3>, rotation: Rotation): (r: Params)
    requires SameBatch(p, |leftOrigin|)
    ensures |r| == |p| && SameBatch(r, |leftOrigin|)
  {
    seq(|p|, t requires 0 <= t < |p| =>
      seq(|leftOrigin|, b requires 0 <= b < |leftOrigin| => rotation(leftOrigin[b])(p[t][b])))
  }

  /** Each left origin mapped by the rotation it chooses for itself. */
  function SelfRotate(leftOrigin: seq<Vec3>, rotation: Rotation): (r: seq<Vec3>)
    ensures |r| == |leftOrigin|
  {
    seq(|leftOrigin|, b requires 0 <= b < |leftOrigin| => rotation(leftOrigin[b])(leftOrigin[b]))
  }

  /** Rotating a tuple about its own first tensor turns that tensor into its self-rotation. */
  lemma RotateOrigin(p: Params, rotation: Rotation)
    requires |p| > 0 && SameBatch(p, |p[0]|)
    ensures Rotate(p, p[0], rotation)[0] == SelfRotate(p[0], rotation)
  {
  }

  /** The assertion after the rotation about z: every left origin lies (nearly) in the xz plane. */
  predicate OnXzPlane(origins: seq<Vec3>)
  {
    forall b :: 0 <= b < |origins| ==> IsCloseToZero(origins[b].y)
  }

  /** The assertion after the polar rotation: every left origin lies (nearly) in the xy plane. */
  predicate OnXyPlane(origins: seq<Vec3>)
  {
    forall b :: 0 <= b < |origins| ==> IsCloseToZero(origins[b].z)
  }

  /** Both `isclose` assertions, stated on the left origins the transformation starts from. */
  predicate LevelChecksPass(leftOrigin: seq<Vec3>, rotatePolar: bool, rots: Rotations)
  {
    var o := SelfRotate(leftOrigin, rots.aroundZ);
    OnXzPlane(o) && (rotatePolar ==> OnXyPlane(SelfRotate(o, rots.aroundY)))
  }

  /** The reflection step applied to every tensor of the tuple. */
  function ReflectAll(p: Params, reflect: Option<seq<bool>>, n: nat): (r: Params)
    requires SameBatch(p, n)
    requires reflect.Some? ==> |reflect.value| == n
    ensures |r| == |p| && SameBatch(r, n)
  {
    match reflect
    case None => p
    case Some(mask) => seq(|p|, t requires 0 <= t < |p| => ReflectWhere(mask, p[t]))
  }

  /** Reflecting all six vectors twice with the same mask gives them back. */
  lemma ReflectAllInvolution(p: Params, reflect: Option<seq<bool>>, n: nat)
    requires SameBatch(p, n)
    requires reflect.Some? ==> |reflect.value| == n
    ensures ReflectAll(ReflectAll(p, reflect, n), reflect, n) == p
  {
    if reflect.Some? {
      forall t | 0 <= t < |p|
        ensures ReflectAll(ReflectAll(p, reflect, n), reflect, n)[t] == p[t]
      {
        ReflectWhereInvolution(reflect.value, p[t]);
      }
    }
  }

  /**
   `invariance_transformation` as written. Past the shape assertion it
   builds the 4x4 matrix with `torch.tensor` from entries that are (B,)
   tensors, which raises ValueError unless B is 1; with B = 1, `transform`
   concatenates the (1, 3) point with the (1,) tensor `[1.0]`, which raises
   RuntimeError. Nothing after the first `transform` call is reached.
   */
  function InvarianceTransformationAsWritten(left: Params, right: Params, opts: Options, rots: Rotations): (r: Result<Params>)
    ensures r.Err?
  {
    var n :- CheckShapes(left, right);
    if n != 1 then Err(ValueError(ScalarMessage))
    else Err(RuntimeError(CatMessage))
  }

  /**
   Whatever the options and rotations, the function as written raises: the
   unpacking and shape errors first, and on well-shaped frames ValueError
   for a batch of any size but one and RuntimeError for a batch of one.
   */
  lemma AsWrittenFailsInTransform(left: Params, right: Params, opts: Options, rots: Rotations)
    ensures var r := InvarianceTransformationAsWritten(left, right, opts, rots);
      (!Shaped(left, right) ==> r.error == CheckShapes(left, right).error) &&
      (Shaped(left, right) && |left[0]| != 1 ==> r == Err(ValueError(ScalarMessage))) &&
      (Shaped(left, right) && |left[0]| == 1 ==> r == Err(RuntimeError(CatMessage)))
  {
  }

  /** The tuple the final `return` builds: the six vectors, or four when the y axes are removed. */
  function ReturnedTuple(l: Params, r: Params, removeYAxis: bool): (flat: Params)
    requires |l| == 3 && |r| == 3
    ensures |flat| == (if removeYAxis then 4 else 6)
    ensures removeYAxis ==> flat == [l[0], l[1], r[0], r[1]]
    ensures !removeYAxis ==> flat[..3] == l && flat[3..] == r
  {
    if removeYAxis then [l[0], l[1], r[0], r[1]] else l + r
  }

  /** Python's `a, b = values`: exactly two values unpack, anything else raises ValueError. */
  function UnpackPair<T>(values: seq<T>): (r: Result<(T, T)>)
    ensures r.Ok? <==> |values| == 2
    ensures r.Ok? ==> r.value == (values[0], values[1])
    ensures r.Err? ==> r.error.ValueError?
  {
    if |values| < 2 then Err(ValueError(NotEnoughMessage))
    else if |values| > 2 then Err(ValueError(TooManyMessage))
    else Ok((values[0], values[1]))
  }

  /**
   Even past `transform`, the caller's `left_global_params,
   right_global_params = ...` could not succeed: the returned tuple always
   has four or six entries.
   */
  lemma ReturnedTupleNeverUnpacks(l: Params, r: Params, removeYAxis: bool)
    requires |l| == 3 && |r| == 3
    ensures UnpackPair(ReturnedTuple(l, r, removeYAxis)) == Err(ValueError(TooManyMessage))
  {
  }

  /**
   The six vectors after the steps the source intends: rotated about z,
   rotated about y when asked, then reflected.
   */
  function Transformed(left: Params, right: Params, opts: Options, rots: Rotations): (r: (Params, Params))
    requires Shaped(left, right) && MaskFits(opts, |left[0]|)
    ensures |r.0| == 3 && |r.1| == 3 && SameBatch(r.0, |left[0]|) && SameBatch(r.1, |left[0]|)
  {
    var n := |left[0]|;
    var (l1, r1) := (Rotate(left, left[0], rots.aroundZ), Rotate(right, left[0], rots.aroundZ));
    var (l2, r2) := if opts.rotatePolar then (Rotate(l1, l1[0], rots.aroundY), Rotate(r1, l1[0], rots.aroundY))
                    else (l1, r1);
    (ReflectAll(l2, opts.reflect, n), ReflectAll(r2, opts.reflect, n))
  }

  /**
   The corrected transformation: each batch element rotated by its own
   angles, the two `isclose` assertions kept, and one tuple per half returned,
   as its caller unpacks it, holding origin, x axis and (unless removed) y axis.
   */
  function InvarianceTransformation(left: Params, right: Params, opts: Options, rots: Rotations): (r: Result<(Params, Params)>)
    requires |left| > 0 ==> MaskFits(opts, |left[0]|)
    ensures r.Ok? ==> |r.value.0| == |r.value.1| == (if opts.removeYAxis then 2 else 3)
    ensures r.Ok? ==> |left| == 3 && SameBatch(r.value.0, |left[0]|) && SameBatch(r.value.1, |left[0]|)
    ensures r.Err? && (|left| != 3 || |right| != 3) ==> r.error.ValueError?
    ensures r.Err? && |left| == 3 && |right| == 3 ==> r.error.AssertionError?
  {
    var n :- CheckShapes(left, right);
    var l1 := Rotate(left, left[0], rots.aroundZ);
    var _ :- Check(OnXzPlane(l1[0]), OnXzMessage);
    var l2 := if opts.rotatePolar then Rotate(l1, l1[0], rots.aroundY) else l1;
    var _ :- Check(!opts.rotatePolar || OnXyPlane(l2[0]), OnXMessage);
    var (l, r) := Transformed(left, right, opts, rots);
    if opts.removeYAxis then Ok(([l[0], l[1]], [r[0], r[1]])) else Ok((l, r))
  }

  /**
   The corrected transformation succeeds exactly when the frames have the
   asserted shapes and the rotated left origins pass both `isclose` checks;
   it then returns the transformed vectors, cut to origin and x axis when
   the y axes are removed.
   */
  lemma CorrectedSucceedsIff(left: Params, right: Params, opts: Options, rots: Rotations)
    requires |left| > 0 ==> MaskFits(opts, |left[0]|)
    ensures var r := InvarianceTransformation(left, right, opts, rots);
      r.Ok? <==> Shaped(left, right) && LevelChecksPass(left[0], opts.rotatePolar, rots)
    ensures var r := InvarianceTransformation(left, right, opts, rots);
      r.Ok? ==> var (l, rr) := Transformed(left, right, opts, rots);
        r.value == (if opts.removeYAxis then ([l[0], l[1]], [rr[0], rr[1]]) else (l, rr))
  {
    if Shaped(left, right) {
      var l1 := Rotate(left, left[0], rots.aroundZ);
      RotateOrigin(left, rots.aroundZ);
      if opts.rotatePolar {
        RotateOrigin(l1, rots.aroundY);
      }
    }
  }

  /**
   The corrected transformation returns what the final `return` was meant
   to: the flat tuple of the transformed vectors is its left tuple followed
   by its right one.
   */
  lemma CorrectedSplitsFlatTuple(left: Params, right: Params, opts: Options, rots: Rotations)
    requires |left| > 0 ==> MaskFits(opts, |left[0]|)
    requires InvarianceTransformation(left, right, opts, rots).Ok?
    ensures Shaped(left, right)
    ensures var (l, r) := InvarianceTransformation(left, right, opts, rots).value;
      var (tl, tr) := Transformed(left, right, opts, rots);
      l + r == ReturnedTuple(tl, tr, opts.removeYAxis)
  {
    CorrectedSucceedsIff(left, right, opts, rots);
  }

  /** The rotation about z levels every origin it is chosen from into the xz plane. */
  ghost predicate LevelsY(rotation: Rotation)
  {
    forall o: Vec3 :: rotation(o)(o).y == 0.0
  }

  /** The rotation about y brings every origin it is chosen from down to z = 0. */
  ghost predicate LevelsZ(rotation: Rotation)
  {
    forall o: Vec3 :: rotation(o)(o).z == 0.0
  }

  /**
   With exact rotations, the `isclose` assertions always hold, so the
   corrected transformation succeeds on every well-shaped input.
   */
  lemma ExactRotationsSucceed(left: Params, right: Params, opts: Options, rots: Rotations)
    requires Shaped(left, right) && MaskFits(opts, |left[0]|)
    requires LevelsY(rots.aroundZ) && (opts.rotatePolar ==> LevelsZ(rots.aroundY))
    ensures InvarianceTransformation(left, right, opts, rots).Ok?
  {
    var o := SelfRotate(left[0], rots.aroundZ);
    forall b | 0 <= b < |o| ensures IsCloseToZero(o[b].y) {
      var v := left[0][b];
      assert rots.aroundZ(v)(v).y == 0.0;
    }
    if opts.rotatePolar {
      var o2 := SelfRotate(o, rots.aroundY);
      forall b | 0 <= b < |o2| ensures IsCloseToZero(o2[b].z) {
        var v := o[b];
        assert rots.aroundY(v)(v).z == 0.0;
      }
    }
    CorrectedSucceedsIff(left, right, opts, rots);
  }

  /**
   With identity rotations, no polar rotation and no y-axis removal, on
   frames whose left origins already lie in the xz plane, a reflected batch
   element has the y component of all six vectors negated and an
   unreflected one is unchanged.
   */
  lemma ReflectionOnly(left: Params, right: Params, mask: seq<bool>, b: nat, t: nat)
    requires |left| == 3 && |right| == 3 && SameBatch(left, |mask|) && SameBatch(right, |mask|)
    requires OnXzPlane(left[0])
    requires b < |mask| && t < 3
    ensures var r := InvarianceTransformation(left, right, Options(false, Some(mask), false), Rotations(_ => v => v, _ => v => v));
      r.Ok? &&
      (mask[b] ==> r.value.0[t][b] == ReflectY(left[t][b]) && r.value.1[t][b] == ReflectY(right[t][b])) &&
      (!mask[b] ==> r.value.0[t][b] == left[t][b] && r.value.1[t][b] == right[t][b])
  {
    var id: Rotation := _ => v => v;
    var rots := Rotations(id, id);
    assert SelfRotate(left[0], id) == left[0];
    CorrectedSucceedsIff(left, right, Options(false, Some(mask), false), rots);
  }

  /** Removing the y axes keeps the origin and x axis of each half, in order. */
  lemma RemoveYAxisKeepsOriginAndX(left: Params, right: Params, rotatePolar: bool, reflect: Option<seq<bool>>, rots: Rotations)
    requires |left| > 0 ==> MaskFits(Options(rotatePolar, reflect, false), |left[0]|)
    ensures var kept := InvarianceTransformation(left, right, Options(rotatePolar, reflect, false), rots);
      var removed := InvarianceTransformation(left, right, Options(rotatePolar, reflect, true), rots);
      (removed.Ok? <==> kept.Ok?) &&
      (kept.Ok? ==> removed.value.0 == kept.value.0[..2] && removed.value.1 == kept.value.1[..2])
  {
  }
}
