/**
 Turning one sampled grasp back into a hand pose for validation
 (dexdiffuser/validate_diffusion.py): the object's pose from its state
 vector, the 37-wide grasp vector cut into translation, 6-D rotation,
 joint angles and four finger directions, the rotation completed by
 Gram–Schmidt and a cross product, the hand's pose carried into the world
 frame, and the per-finger orientation matrices.

 `quat2mat` and the vector normalisation (a division by a square root) are
 parameters.
 */
module GraspDecode {
  import opened Outcome
  import opened RealSeqs
  import opened Rigid
  import GlobalFrames

  // ---------------------------------------------------------------------------
  // The object's pose
  // ---------------------------------------------------------------------------

  /** `v[idx]` with an index list: IndexError when an index is past the end. */
  function Gather(v: seq<real>, idx: seq<nat>): (r: Result<seq<real>>)
    ensures r.Ok? <==> forall k :: 0 <= k < |idx| ==> idx[k] < |v|
    ensures r.Ok? ==> |r.value| == |idx| && forall k :: 0 <= k < |idx| ==> r.value[k] == v[idx[k]]
    ensures r.Err? ==> r.error.IndexError?
  {
    if forall k :: 0 <= k < |idx| ==> idx[k] < |v| then
      Ok(seq(|idx|, k requires 0 <= k < |idx| => v[idx[k]]))
    else Err(IndexError("index out of bounds"))
  }

  /** The scalar-last to scalar-first reordering of a quaternion. */
  const XyzwToWxyz: seq<nat> := [3, 0, 1, 2]

  /** Its inverse, scalar-first to scalar-last. */
  const WxyzToXyzw: seq<nat> := [1, 2, 3, 0]

  /** `q[[3, 0, 1, 2]]` moves the scalar part w to the front and keeps x, y, z in order. */
  lemma QuatToWxyz(q: seq<real>)
    requires |q| == 4
    ensures Gather(q, XyzwToWxyz) == Ok([q[3]] + q[..3])
  {
    assert Gather(q, XyzwToWxyz).value == [q[3]] + q[..3];
  }

  /** Reordering to scalar-first and back gives the quaternion back. */
  lemma QuatReorderRoundTrip(q: seq<real>)
    requires |q| == 4
    ensures Gather(Gather(q, XyzwToWxyz).value, WxyzToXyzw) == Ok(q)
  {
    var w := Gather(q, XyzwToWxyz).value;
    assert Gather(w, WxyzToXyzw).value == q;
  }

  /** `quat2mat` gives a 3×3 matrix for every quaternion. */
  ghost predicate GivesMatrices(quat2mat: seq<real> -> seq<seq<real>>)
  {
    forall q :: IsMatrix(quat2mat(q), 3, 3)
  }

  /**
   The object's pose `X_W_Oy`: the position is the first three entries of
   the state, the orientation the quaternion in the next four, scalar last.
   A state shorter than 7 leaves the quaternion short, and the reordering
   raises IndexError.
   */
  function ObjectTransform(state: seq<real>, quat2mat: seq<real> -> seq<seq<real>>): (r: Result<seq<seq<real>>>)
    requires GivesMatrices(quat2mat)
    ensures r.Ok? <==> |state| >= 7
    ensures r.Err? ==> r.error.IndexError?
    ensures r.Ok? ==> r.value == Homogeneous(quat2mat([state[6]] + state[3..6]), state[..3])
  {
    var xyz := PySlice(state, 0, 3);
    var quat := PySlice(state, 3, 7);
    QuatSliceLength(state);
    var wxyz :- Gather(quat, XyzwToWxyz);
    assert XyzwToWxyz[0] == 3 && 3 < |quat|;
    QuatToWxyz(quat);
    assert wxyz == [state[6]] + state[3..6];
    Ok(Homogeneous(quat2mat(wxyz), xyz))
  }

  /** `state[3:7]` has four entries exactly when the state has seven, and fewer otherwise. */
  lemma QuatSliceLength(state: seq<real>)
    ensures |PySlice(state, 3, 7)| <= 4
    ensures |state| >= 7 <==> |PySlice(state, 3, 7)| == 4
    ensures |state| >= 7 ==> PySlice(state, 3, 7) == state[3..7]
  {
  }

  // ---------------------------------------------------------------------------
  // The grasp vector
  // ---------------------------------------------------------------------------

  /** 3 + 6 + 16 + 4 · 3 entries. */
  const GraspVectorWidth: nat := 37

  /** A grasp vector's parts: translation, 6-D rotation, joint angles and one direction per finger. */
  datatype Grasp = Grasp(trans: seq<real>, rot6d: seq<real>, joints: seq<real>, dirs: seq<seq<real>>)
  {
    predicate Valid()
    {
      |trans| == 3 && |rot6d| == 6 && |joints| == 16 && IsMatrix(dirs, 4, 3)
    }
  }

  /** `g[25:].reshape(4, 3)`: finger f's direction is entries 25 + 3f to 27 + 3f. */
  function DirRows(g: seq<real>): (dirs: seq<seq<real>>)
    requires |g| == GraspVectorWidth
    ensures IsMatrix(dirs, 4, 3)
    ensures forall f, k :: 0 <= f < 4 && 0 <= k < 3 ==> dirs[f][k] == g[25 + 3 * f + k]
  {
    seq(4, f requires 0 <= f < 4 => g[25 + 3 * f..28 + 3 * f])
  }

  /**
   The shape check and the cut of a grasp vector: the translation is
   entries 0–2, the 6-D rotation 3–8, the joint angles 9–24 and the finger
   directions 25–36.
   */
  function SplitGrasp(g: seq<real>): (r: Result<Grasp>)
    ensures r.Ok? <==> |g| == GraspVectorWidth
    ensures r.Err? ==> r.error.AssertionError?
    ensures r.Ok? ==> r.value.Valid()
    ensures r.Ok? ==> (forall k :: 0 <= k < 3 ==> r.value.trans[k] == g[k])
                      && (forall k :: 0 <= k < 6 ==> r.value.rot6d[k] == g[3 + k])
                      && (forall k :: 0 <= k < 16 ==> r.value.joints[k] == g[9 + k])
                      && (forall f, k :: 0 <= f < 4 && 0 <= k < 3 ==> r.value.dirs[f][k] == g[25 + 3 * f + k])
  {
    var _ :- Check(|g| == GraspVectorWidth, "grasp shape");
    Ok(Grasp(g[..3], g[3..9], g[9..25], DirRows(g)))
  }

  /** The grasp vector a valid grasp is laid out as: the parts one after another. */
  function JoinGrasp(d: Grasp): (g: seq<real>)
    requires d.Valid()
    ensures |g| == GraspVectorWidth
  {
    d.trans + d.rot6d + d.joints + d.dirs[0] + d.dirs[1] + d.dirs[2] + d.dirs[3]
  }

  /** The four parts cover the grasp vector: joining the cut parts gives the vector back. */
  lemma SplitThenJoin(g: seq<real>)
    requires |g| == GraspVectorWidth
    ensures JoinGrasp(SplitGrasp(g).value) == g
  {
    var d := SplitGrasp(g).value;
    var j := JoinGrasp(d);
    forall i | 0 <= i < GraspVectorWidth ensures j[i] == g[i] {
      if i >= 25 {
        var f := (i - 25) / 3;
        assert 25 + 3 * f <= i < 28 + 3 * f;
        assert j[i] == d.dirs[f][i - 25 - 3 * f];
      }
    }
  }

  /** The four parts do not overlap: cutting a joined grasp gives each part back. */
  lemma JoinThenSplit(d: Grasp)
    requires d.Valid()
    ensures SplitGrasp(JoinGrasp(d)) == Ok(d)
  {
    var g := JoinGrasp(d);
    var e := SplitGrasp(g).value;
    assert e.trans == d.trans;
    assert e.rot6d == d.rot6d;
    assert e.joints == d.joints;
    forall f | 0 <= f < 4 ensures e.dirs[f] == d.dirs[f] {
      forall k | 0 <= k < 3 ensures e.dirs[f][k] == d.dirs[f][k] {
        assert g[25 + 3 * f + k] == d.dirs[f][k];
      }
    }
    assert e.dirs == d.dirs;
  }

  // ---------------------------------------------------------------------------
  // The hand's rotation
  // ---------------------------------------------------------------------------

  /** `R = zeros(3, 3); R[:3, :2] = rot6d.reshape(3, 2)`. */
  function Rot6dMatrix(rot6d: seq<real>): (m: seq<seq<real>>)
    requires |rot6d| == 6
    ensures IsMatrix(m, 3, 3)
  {
    seq(3, i requires 0 <= i < 3 => [rot6d[2 * i], rot6d[2 * i + 1], 0.0])
  }

  /** The 6-D rotation fills the first two columns row by row, and the third column is zero. */
  lemma Rot6dMatrixEntries(rot6d: seq<real>)
    requires |rot6d| == 6
    ensures var m := Rot6dMatrix(rot6d);
            forall i, j :: 0 <= i < 3 && 0 <= j < 2 ==> m[i][j] == rot6d[2 * i + j]
    ensures var m := Rot6dMatrix(rot6d);
            Column(m, 0) == [rot6d[0], rot6d[2], rot6d[4]] && Column(m, 1) == [rot6d[1], rot6d[3], rot6d[5]]
            && Column(m, 2) == [0.0, 0.0, 0.0]
  {
  }

  /** `m[:3, :2].reshape(6)`: the first two columns read row by row. */
  function Rot6dOf(m: seq<seq<real>>): (r: seq<real>)
    requires IsMatrix(m, 3, 3)
    ensures |r| == 6
  {
    [m[0][0], m[0][1], m[1][0], m[1][1], m[2][0], m[2][1]]
  }

  /** Reading the 6-D rotation back out of its matrix gives it back. */
  lemma Rot6dRoundTrip(rot6d: seq<real>)
    requires |rot6d| == 6
    ensures Rot6dOf(Rot6dMatrix(rot6d)) == rot6d
  {
  }

  function ToVec3(v: seq<real>): GlobalFrames.Vec3
    requires |v| == 3
  {
    GlobalFrames.Vec3(v[0], v[1], v[2])
  }

  function Scaled(c: real, v: seq<real>): (r: seq<real>)
    ensures |r| == |v|
  {
    seq(|v|, i requires 0 <= i < |v| => c * v[i])
  }

  function Minus(u: seq<real>, v: seq<real>): (r: seq<real>)
    requires |u| == |v|
    ensures |r| == |u|
  {
    seq(|u|, i requires 0 <= i < |u| => u[i] - v[i])
  }

  /** `normalize` keeps 3-vectors 3-vectors. */
  ghost predicate KeepsLength(normalize: seq<real> -> seq<real>)
  {
    forall v :: |v| == 3 ==> |normalize(v)| == 3
  }

  /** The matrix whose columns are a, b and c. */
  function FromColumns(a: seq<real>, b: seq<real>, c: seq<real>): (m: seq<seq<real>>)
    requires |a| == 3 && |b| == 3 && |c| == 3
    ensures IsMatrix(m, 3, 3)
    ensures Column(m, 0) == a && Column(m, 1) == b && Column(m, 2) == c
  {
    seq(3, i requires 0 <= i < 3 => [a[i], b[i], c[i]])
  }

  /** The second column with its component along the (normalised) first removed, then normalised. */
  function SecondColumn(c0: seq<real>, raw1: seq<real>, normalize: seq<real> -> seq<real>): seq<real>
    requires |c0| == 3 && |raw1| == 3
  {
    normalize(Minus(raw1, Scaled(Dot(c0, raw1), c0)))
  }

  /**
   Completing the rotation: the first column normalised, the second made
   orthogonal to it and normalised, a check that they are orthogonal to
   within 1e-3, and the third their cross product.
   */
  function GramSchmidt(m: seq<seq<real>>, normalize: seq<real> -> seq<real>): (r: Result<seq<seq<real>>>)
    requires IsMatrix(m, 3, 3) && KeepsLength(normalize)
    ensures var c0 := normalize(Column(m, 0));
            var c1 := SecondColumn(c0, Column(m, 1), normalize);
            (r.Ok? <==> Dot(c0, c1) < 0.001)
            && (r.Err? ==> r.error.AssertionError?)
            && (r.Ok? ==> IsMatrix(r.value, 3, 3) && Column(r.value, 0) == c0 && Column(r.value, 1) == c1
                          && Dot(Column(r.value, 2), c0) == 0.0 && Dot(Column(r.value, 2), c1) == 0.0)
  {
    var c0 := normalize(Column(m, 0));
    var c1 := SecondColumn(c0, Column(m, 1), normalize);
    var _ :- Check(Dot(c0, c1) < 0.001, "columns not orthogonal");
    var c2 := GlobalFrames.Coords(GlobalFrames.Cross(ToVec3(c0), ToVec3(c1)));
    CrossOrthogonal(c0, c1);
    Ok(FromColumns(c0, c1, c2))
  }

  /** The cross product is orthogonal to both its factors. */
  lemma CrossOrthogonal(a: seq<real>, b: seq<real>)
    requires |a| == 3 && |b| == 3
    ensures var c := GlobalFrames.Coords(GlobalFrames.Cross(ToVec3(a), ToVec3(b)));
            |c| == 3 && Dot(c, a) == 0.0 && Dot(c, b) == 0.0
  {
    var c := GlobalFrames.Coords(GlobalFrames.Cross(ToVec3(a), ToVec3(b)));
    Dot3(c, a);
    Dot3(c, b);
    CrossTerms(a[0], a[1], a[2], b[0], b[1], b[2]);
  }

  lemma Dot3(u: seq<real>, v: seq<real>)
    requires |u| == 3 && |v| == 3
    ensures Dot(u, v) == u[0] * v[0] + u[1] * v[1] + u[2] * v[2]
  {
    var u1, v1 := u[1..], v[1..];
    var u2, v2 := u1[1..], v1[1..];
    assert Dot(u2[1..], v2[1..]) == 0.0;
    assert Dot(u2, v2) == u[2] * v[2];
    assert Dot(u1, v1) == u[1] * v[1] + u[2] * v[2];
  }

  lemma CrossTerms(a0: real, a1: real, a2: real, b0: real, b1: real, b2: real)
    ensures (a1 * b2 - a2 * b1) * a0 + (a2 * b0 - a0 * b2) * a1 + (a0 * b1 - a1 * b0) * a2 == 0.0
    ensures (a1 * b2 - a2 * b1) * b0 + (a2 * b0 - a0 * b2) * b1 + (a0 * b1 - a1 * b0) * b2 == 0.0
  {
  }

  // ---------------------------------------------------------------------------
  // The hand in the world, and the finger orientations
  // ---------------------------------------------------------------------------

  /** `grasp_orientations[:, :, 2] = dirs` on zeros: column 2 of finger f's matrix is its direction. */
  function GraspOrientations(dirs: seq<seq<real>>): (o: seq<seq<seq<real>>>)
    requires IsMatrix(dirs, 4, 3)
    ensures |o| == 4 && forall f :: 0 <= f < 4 ==> IsMatrix(o[f], 3, 3)
  {
    seq(4, f requires 0 <= f < 4 => seq(3, i requires 0 <= i < 3 => [0.0, 0.0, dirs[f][i]]))
  }

  /** Column 2 of each finger's matrix is its direction; columns 0 and 1 are zero. */
  lemma OrientationColumns(dirs: seq<seq<real>>, f: nat)
    requires IsMatrix(dirs, 4, 3) && f < 4
    ensures var o := GraspOrientations(dirs);
            Column(o[f], 2) == dirs[f] && Column(o[f], 0) == [0.0, 0.0, 0.0] && Column(o[f], 1) == [0.0, 0.0, 0.0]
  {
  }

  /** Reading column 2 of every finger's matrix back gives the directions back. */
  lemma OrientationsRoundTrip(dirs: seq<seq<real>>)
    requires IsMatrix(dirs, 4, 3)
    ensures var o := GraspOrientations(dirs);
            seq(4, f requires 0 <= f < 4 => Column(o[f], 2)) == dirs
  {
    var o := GraspOrientations(dirs);
    forall f | 0 <= f < 4 ensures Column(o[f], 2) == dirs[f] {
      OrientationColumns(dirs, f);
    }
  }

  /** The hand's pose for validation: world translation and rotation, joint angles, finger orientations. */
  datatype HandPose = HandPose(trans: seq<real>, rot: seq<seq<real>>, joints: seq<real>, orientations: seq<seq<seq<real>>>)

  /**
   The grasp of one validation example: the object's pose from its state,
   the grasp cut into its parts, the rotation completed, the hand's pose
   `X_W_H = X_W_Oy @ X_Oy_H`, and the finger orientations. The object pose
   is built first, so a short state is an IndexError before a grasp of the
   wrong width is an AssertionError.
   */
  function DecodeGrasp(state: seq<real>, g: seq<real>, quat2mat: seq<real> -> seq<seq<real>>,
                       normalize: seq<real> -> seq<real>): (r: Result<HandPose>)
    requires GivesMatrices(quat2mat) && KeepsLength(normalize)
    ensures |state| < 7 ==> r.Err? && r.error.IndexError?
    ensures |state| >= 7 && |g| != GraspVectorWidth ==> r.Err? && r.error.AssertionError?
    ensures r.Ok? ==> |state| >= 7 && |g| == GraspVectorWidth
    ensures r.Ok? ==> r.value.joints == g[9..25] && IsMatrix(r.value.rot, 3, 3) && |r.value.trans| == 3
    ensures |state| >= 7 && |g| == GraspVectorWidth ==>
              (r.Ok? <==> GramSchmidt(Rot6dMatrix(g[3..9]), normalize).Ok?) && (r.Err? ==> r.error.AssertionError?)
  {
    var objectPose :- ObjectTransform(state, quat2mat);
    var parts :- SplitGrasp(g);
    assert parts.rot6d == g[3..9];
    var rot :- GramSchmidt(Rot6dMatrix(parts.rot6d), normalize);
    var hand := MatMul(objectPose, Homogeneous(rot, parts.trans), 4, 4, 4);
    Ok(HandPose(TranslationOf(hand), RotationOf(hand), parts.joints, GraspOrientations(parts.dirs)))
  }

  /**
   Both transforms are homogeneous, so the hand's world pose rotates by
   R_W · R_H and translates by R_W · t_H + t_W, where R_W, t_W are the
   object's rotation and position and R_H, t_H the grasp's.
   */
  lemma DecodeGraspInWorld(state: seq<real>, g: seq<real>, quat2mat: seq<real> -> seq<seq<real>>,
                           normalize: seq<real> -> seq<real>)
    requires GivesMatrices(quat2mat) && KeepsLength(normalize)
    requires DecodeGrasp(state, g, quat2mat, normalize).Ok?
    ensures var pose := DecodeGrasp(state, g, quat2mat, normalize).value;
            var rW := quat2mat([state[6]] + state[3..6]);
            var rH := GramSchmidt(Rot6dMatrix(g[3..9]), normalize).value;
            pose.rot == MatMul(rW, rH, 3, 3, 3)
            && pose.trans == Rigid.Add(MatVec(rW, g[..3]), state[..3])
            && pose.orientations == GraspOrientations(DirRows(g))
  {
    var rW := quat2mat([state[6]] + state[3..6]);
    var parts := SplitGrasp(g).value;
    assert parts.trans == g[..3] && parts.rot6d == g[3..9] && parts.dirs == DirRows(g);
    var rH := GramSchmidt(Rot6dMatrix(parts.rot6d), normalize).value;
    assert ObjectTransform(state, quat2mat).value == Homogeneous(rW, state[..3]);
    ComposeHomogeneous(rW, state[..3], rH, parts.trans);
    PartsOfHomogeneous(MatMul(rW, rH, 3, 3, 3), Rigid.Add(MatVec(rW, parts.trans), state[..3]));
  }
}
