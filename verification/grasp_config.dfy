/**
 The batched hand and grasp configurations of the grasp optimiser
 (nerf_grasping/optimizer_utils.py): their shape-checked setters and
 factories, the flat `as_tensor` layouts, and `batch_cov`.
 Wrist poses and grasp orientations are kept as the raw numbers of their
 Lie-group tensors (x, y, z, then a quaternion); forward kinematics and
 the Lie-algebra mean are not modelled.
 */
module GraspConfigs {
  import opened Outcome
  import opened RealSeqs
  import opened Rigid

  /** Numbers in a wrist pose: a translation and a quaternion. */
  const WristWidth: nat := 7
  /** Joint angles of the Allegro hand. */
  const NumJoints: nat := 16
  /** Numbers in a grasp orientation quaternion. */
  const QuatWidth: nat := 4
  /** A hand row: the wrist pose, then the joint angles. */
  const HandWidth: nat := WristWidth + NumJoints
  /** A grasp row: a hand row, then one finger's orientation. */
  const GraspWidth: nat := HandWidth + QuatWidth

  predicate IsTensor3(t: seq<seq<seq<real>>>, a: nat, b: nat, c: nat)
  {
    |t| == a && forall i :: 0 <= i < a ==> IsMatrix(t[i], b, c)
  }

  datatype HandConfig = HandConfig(wristPose: seq<seq<real>>, jointAngles: seq<seq<real>>)
  {
    function BatchSize(): nat { |wristPose| }

    /** The shapes the module is built with: (B, 7) wrist poses and (B, 16) joint angles. */
    predicate Valid()
    {
      IsMatrix(wristPose, BatchSize(), WristWidth) && IsMatrix(jointAngles, BatchSize(), NumJoints)
    }
  }

  datatype GraspConfig = GraspConfig(hand: HandConfig, orientations: seq<seq<seq<real>>>, numFingers: nat)
  {
    function BatchSize(): nat { hand.BatchSize() }

    predicate Valid()
    {
      hand.Valid() && IsTensor3(orientations, BatchSize(), numFingers, QuatWidth)
    }
  }

  // ---------------------------------------------------------------------
  // Setters and factories

  /** `set_wrist_pose`: the new pose must have the stored pose's shape; it then replaces it. */
  function SetWristPose(h: HandConfig, w: seq<seq<real>>): (r: Result<HandConfig>)
    requires h.Valid()
    ensures r.Ok? <==> IsMatrix(w, h.BatchSize(), WristWidth)
    ensures r.Err? ==> r.error.AssertionError?
    ensures r.Ok? ==> r.value.wristPose == w && r.value.jointAngles == h.jointAngles && r.value.Valid()
  {
    if IsMatrix(w, h.BatchSize(), WristWidth) then Ok(h.(wristPose := w))
    else Err(AssertionError("wrist pose shape"))
  }

  /** `set_joint_angles`: the new angles must have the stored angles' shape; they then replace them. */
  function SetJointAngles(h: HandConfig, q: seq<seq<real>>): (r: Result<HandConfig>)
    requires h.Valid()
    ensures r.Ok? <==> IsMatrix(q, h.BatchSize(), NumJoints)
    ensures r.Err? ==> r.error.AssertionError?
    ensures r.Ok? ==> r.value.jointAngles == q && r.value.wristPose == h.wristPose && r.value.Valid()
  {
    if IsMatrix(q, h.BatchSize(), NumJoints) then Ok(h.(jointAngles := q))
    else Err(AssertionError("joint angles shape"))
  }

  /** `set_grasp_orientations`: the new orientations must have the stored shape; they then replace them. */
  function SetGraspOrientations(g: GraspConfig, o: seq<seq<seq<real>>>): (r: Result<GraspConfig>)
    requires g.Valid()
    ensures r.Ok? <==> IsTensor3(o, g.BatchSize(), g.numFingers, QuatWidth)
    ensures r.Err? ==> r.error.AssertionError?
    ensures r.Ok? ==> r.value.orientations == o && r.value.hand == g.hand && r.value.numFingers == g.numFingers && r.value.Valid()
  {
    if IsTensor3(o, g.BatchSize(), g.numFingers, QuatWidth) then Ok(g.(orientations := o))
    else Err(AssertionError("grasp orientations shape"))
  }

  /** Setting a value twice is setting it once. */
  lemma SettersIdempotent(h: HandConfig, w: seq<seq<real>>, q: seq<seq<real>>)
    requires h.Valid()
    ensures SetWristPose(h, w).Ok? ==> SetWristPose(SetWristPose(h, w).value, w) == SetWristPose(h, w)
    ensures SetJointAngles(h, q).Ok? ==> SetJointAngles(SetJointAngles(h, q).value, q) == SetJointAngles(h, q)
  {
  }

  /** Setting the wrist pose and the joint angles gives the same configuration in either order. */
  lemma SettersCommute(h: HandConfig, w: seq<seq<real>>, q: seq<seq<real>>)
    requires h.Valid()
    requires IsMatrix(w, h.BatchSize(), WristWidth) && IsMatrix(q, h.BatchSize(), NumJoints)
    ensures SetJointAngles(SetWristPose(h, w).value, q) == SetWristPose(SetJointAngles(h, q).value, w)
  {
  }

  /** The zero-angle unit quaternion (x, y, z, w) that `identity_SO3` fills new orientations with. */
  const IdentityQuat: seq<real> := [0.0, 0.0, 0.0, 1.0]

  /**
   A freshly built configuration of batch size B: the given wrist poses
   (a random draw in the source), zero joint angles and identity
   orientations.
   */
  function NewGraspConfig(batchSize: nat, numFingers: nat, initialWrist: seq<seq<real>>): (g: GraspConfig)
    requires IsMatrix(initialWrist, batchSize, WristWidth)
    ensures g.Valid() && g.BatchSize() == batchSize && g.numFingers == numFingers
  {
    var zeros := seq(batchSize, _ => seq(NumJoints, _ => 0.0));
    var ident := seq(batchSize, _ => seq(numFingers, _ => IdentityQuat));
    GraspConfig(HandConfig(initialWrist, zeros), ident, numFingers)
  }

  /**
   `AllegroGraspConfig.from_values`: the batch size is the wrist pose's
   leading dimension; the joint angles must be (B, 16), the wrist pose
   (B, 7) and the orientations (B, F, 4); a new configuration is built and
   the three values are set into it.
   */
  function GraspFromValues(wrist: seq<seq<real>>, joints: seq<seq<real>>, orientations: seq<seq<seq<real>>>,
                           numFingers: nat, initialWrist: nat -> seq<seq<real>>)
    : (r: Result<GraspConfig>)
    requires forall b: nat :: IsMatrix(initialWrist(b), b, WristWidth)
  {
    var b := |wrist|;
    var _ :- Check(IsMatrix(joints, b, NumJoints), "joint_angles.shape");
    var _ :- Check(IsMatrix(wrist, b, WristWidth), "wrist_pose.shape");
    var _ :- Check(IsTensor3(orientations, b, numFingers, QuatWidth), "orientations.shape");
    var g := NewGraspConfig(b, numFingers, initialWrist(b));
    var h1 := SetWristPose(g.hand, wrist).value;
    var h2 := SetJointAngles(h1, joints).value;
    SetGraspOrientations(g.(hand := h2), orientations)
  }

  /**
   `from_values` accepts exactly the shapes it checks, and the result holds
   the given values, whatever the fresh configuration started with.
   */
  lemma GraspFromValuesHolds(wrist: seq<seq<real>>, joints: seq<seq<real>>, orientations: seq<seq<seq<real>>>,
                             numFingers: nat, initialWrist: nat -> seq<seq<real>>)
    requires forall b: nat :: IsMatrix(initialWrist(b), b, WristWidth)
    ensures var r := GraspFromValues(wrist, joints, orientations, numFingers, initialWrist);
            && (r.Ok? <==> IsMatrix(joints, |wrist|, NumJoints) && IsMatrix(wrist, |wrist|, WristWidth)
                           && IsTensor3(orientations, |wrist|, numFingers, QuatWidth))
            && (r.Err? ==> r.error.AssertionError?)
            && (r.Ok? ==> r.value == GraspConfig(HandConfig(wrist, joints), orientations, numFingers) && r.value.Valid())
  {
  }

  /** `AllegroHandConfig.from_values`: a (B, 7) wrist pose and (B, 16) joint angles. */
  function HandFromValues(wrist: seq<seq<real>>, joints: seq<seq<real>>, initialWrist: nat -> seq<seq<real>>)
    : (r: Result<HandConfig>)
    requires forall b: nat :: IsMatrix(initialWrist(b), b, WristWidth)
    ensures r.Ok? <==> IsMatrix(wrist, |wrist|, WristWidth) && IsMatrix(joints, |wrist|, NumJoints)
    ensures r.Err? ==> r.error.AssertionError?
    ensures r.Ok? ==> r.value == HandConfig(wrist, joints)
  {
    var b := |wrist|;
    var _ :- Check(IsMatrix(wrist, b, WristWidth), "wrist_pose.shape");
    var _ :- Check(IsMatrix(joints, b, NumJoints), "joint_angles.shape");
    var h := NewGraspConfig(b, 0, initialWrist(b)).hand;
    var h1 := SetWristPose(h, wrist).value;
    SetJointAngles(h1, joints)
  }

  // ---------------------------------------------------------------------
  // Flat layouts

  /** `AllegroHandConfig.as_tensor`: each row is the wrist pose followed by the joint angles. */
  function HandTensor(h: HandConfig): (t: seq<seq<real>>)
    requires h.Valid()
    ensures IsMatrix(t, h.BatchSize(), HandWidth)
  {
    seq(h.BatchSize(), b requires 0 <= b < h.BatchSize() => h.wristPose[b] + h.jointAngles[b])
  }

  /**
   `AllegroGraspConfig.as_tensor`: for each grasp and finger, the grasp's
   hand row followed by that finger's orientation.
   */
  function GraspTensor(g: GraspConfig): (t: seq<seq<seq<real>>>)
    requires g.Valid()
    ensures IsTensor3(t, g.BatchSize(), g.numFingers, GraspWidth)
  {
    var hand := HandTensor(g.hand);
    seq(g.BatchSize(), b requires 0 <= b < g.BatchSize() =>
      seq(g.numFingers, f requires 0 <= f < g.numFingers => hand[b][..] + g.orientations[b][f]))
  }

  /** Reading the fields back out of a grasp row. */
  function WristOf(row: seq<real>): seq<real>
    requires |row| == GraspWidth
  {
    row[..WristWidth]
  }

  function JointsOf(row: seq<real>): seq<real>
    requires |row| == GraspWidth
  {
    row[WristWidth..HandWidth]
  }

  function OrientationOf(row: seq<real>): seq<real>
    requires |row| == GraspWidth
  {
    row[HandWidth..]
  }

  /**
   Each grasp row is the grasp's wrist pose in columns 0–6, its joint
   angles in 7–22 and the finger's orientation in 23–26; every finger of a
   grasp repeats the same first 23 columns.
   */
  lemma GraspTensorLayout(g: GraspConfig, b: nat, f: nat)
    requires g.Valid() && b < g.BatchSize() && f < g.numFingers
    ensures var row := GraspTensor(g)[b][f];
            && WristOf(row) == g.hand.wristPose[b]
            && JointsOf(row) == g.hand.jointAngles[b]
            && OrientationOf(row) == g.orientations[b][f]
            && row[..HandWidth] == HandTensor(g.hand)[b]
  {
    var row := GraspTensor(g)[b][f];
    var w, q, o := g.hand.wristPose[b], g.hand.jointAngles[b], g.orientations[b][f];
    assert row == w + q + o;
    assert row[..WristWidth] == w;
    assert row[WristWidth..HandWidth] == q;
    assert row[HandWidth..] == o;
  }

  /** The flat layout loses nothing: two valid configurations with the same tensor are the same configuration (given at least one finger). */
  lemma GraspTensorInjective(g1: GraspConfig, g2: GraspConfig)
    requires g1.Valid() && g2.Valid() && g1.numFingers == g2.numFingers && g1.numFingers >= 1
    requires GraspTensor(g1) == GraspTensor(g2)
    ensures g1 == g2
  {
    var n := g1.BatchSize();
    assert g2.BatchSize() == n;
    forall b | 0 <= b < n
      ensures g1.hand.wristPose[b] == g2.hand.wristPose[b] && g1.hand.jointAngles[b] == g2.hand.jointAngles[b]
    {
      GraspTensorLayout(g1, b, 0);
      GraspTensorLayout(g2, b, 0);
    }
    forall b | 0 <= b < n ensures g1.orientations[b] == g2.orientations[b] {
      forall f | 0 <= f < g1.numFingers ensures g1.orientations[b][f] == g2.orientations[b][f] {
        GraspTensorLayout(g1, b, f);
        GraspTensorLayout(g2, b, f);
      }
    }
    assert g1.hand.wristPose == g2.hand.wristPose;
    assert g1.hand.jointAngles == g2.hand.jointAngles;
    assert g1.orientations == g2.orientations;
  }

  // ---------------------------------------------------------------------
  // Covariance

  /** `x.mean(0)` for a nonempty (n, d) batch. */
  function Mean(x: seq<seq<real>>, d: nat): (m: seq<real>)
    requires |x| >= 1 && HasWidth(x, d)
    ensures |m| == d
  {
    seq(d, j requires 0 <= j < d => Sum(Column(x, j)) / |x| as real)
  }

  /** `x - x.mean(0)`; an empty batch stays empty. */
  function Centered(x: seq<seq<real>>, d: nat): (c: seq<seq<real>>)
    requires HasWidth(x, d)
    ensures IsMatrix(c, |x|, d)
  {
    if |x| == 0 then []
    else
      var m := Mean(x, d);
      seq(|x|, k requires 0 <= k < |x| => seq(d, j requires 0 <= j < d => x[k][j] - m[j]))
  }

  /**
   `batch_cov(x, dim=0)`: the centred outer products summed over the batch
   and divided by n − 1. A single sample divides zero by zero, which
   torch turns into NaN; an empty batch sums to zero and divides by −1.
   */
  function BatchCov(x: seq<seq<real>>, d: nat): (r: Result<seq<seq<real>>>)
    requires HasWidth(x, d)
    ensures r.Ok? <==> |x| != 1
    ensures r.Err? ==> r.error.NonFinite?
    ensures r.Ok? ==> IsMatrix(r.value, d, d)
  {
    var n := |x|;
    if n == 1 then Err(NonFinite("0 / 0"))
    else
      var c := Centered(x, d);
      Ok(seq(d, i requires 0 <= i < d => seq(d, j requires 0 <= j < d =>
        Sum(seq(n, k requires 0 <= k < n => c[k][j] * c[k][i])) / (n - 1) as real)))
  }

  /** The centred products (a_k − p)(b_k − q). */
  function CenteredProducts(a: seq<real>, b: seq<real>, p: real, q: real): (s: seq<real>)
    requires |a| == |b|
    ensures |s| == |a| && forall k :: 0 <= k < |a| ==> s[k] == (a[k] - p) * (b[k] - q)
  {
    seq(|a|, k requires 0 <= k < |a| => (a[k] - p) * (b[k] - q))
  }

  lemma CenteredEntry(x: seq<seq<real>>, d: nat, k: nat, j: nat)
    requires HasWidth(x, d) && |x| >= 1 && k < |x| && j < d
    ensures Centered(x, d)[k][j] == x[k][j] - Mean(x, d)[j]
  {
  }

  /** Entry (i, j) of the covariance sums the centred products of columns i and j. */
  lemma {:induction false} BatchCovEntry(x: seq<seq<real>>, d: nat, i: nat, j: nat)
    requires HasWidth(x, d) && |x| >= 2 && i < d && j < d
    ensures var m := Mean(x, d);
            BatchCov(x, d).value[i][j] == Sum(CenteredProducts(Column(x, i), Column(x, j), m[i], m[j])) / (|x| - 1) as real
  {
    var n := |x|;
    var c := Centered(x, d);
    var m := Mean(x, d);
    var terms := seq(n, k requires 0 <= k < n => c[k][j] * c[k][i]);
    var centred := CenteredProducts(Column(x, i), Column(x, j), m[i], m[j]);
    forall k | 0 <= k < n ensures terms[k] == centred[k] {
      CenteredEntry(x, d, k, i);
      CenteredEntry(x, d, k, j);
    }
    assert terms == centred;
  }

  /** The covariance is symmetric. */
  lemma BatchCovSymmetric(x: seq<seq<real>>, d: nat, i: nat, j: nat)
    requires HasWidth(x, d) && |x| != 1 && i < d && j < d
    ensures BatchCov(x, d).value[i][j] == BatchCov(x, d).value[j][i]
  {
    var n := |x|;
    var c := Centered(x, d);
    var tij := seq(n, k requires 0 <= k < n => c[k][j] * c[k][i]);
    var tji := seq(n, k requires 0 <= k < n => c[k][i] * c[k][j]);
    assert tij == tji;
  }

  /** Variances are nonnegative. */
  lemma BatchCovDiagonalNonneg(x: seq<seq<real>>, d: nat, i: nat)
    requires HasWidth(x, d) && |x| != 1 && i < d
    ensures BatchCov(x, d).value[i][i] >= 0.0
  {
    var n := |x|;
    var c := Centered(x, d);
    var t := seq(n, k requires 0 <= k < n => c[k][i] * c[k][i]);
    assert AllNonneg(t) by {
      forall k | 0 <= k < n ensures t[k] >= 0.0 {
        Square(c[k][i]);
      }
    }
    SumNonneg(t);
    if n >= 2 {
      DivideNonneg(Sum(t), (n - 1) as real);
    }
  }

  lemma Square(v: real)
    ensures v * v >= 0.0
  {
  }

  lemma DivideNonneg(s: real, m: real)
    requires s >= 0.0 && m > 0.0
    ensures s / m >= 0.0
  {
  }

  /** An empty batch has the zero matrix as covariance. */
  lemma BatchCovEmpty(d: nat, i: nat, j: nat)
    requires i < d && j < d
    ensures BatchCov([], d).value[i][j] == 0.0
  {
  }
}
