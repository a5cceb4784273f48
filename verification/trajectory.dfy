/**
 Trajectory post-processing and joint-limit validation for the 23-joint
 arm-and-hand robot (nerf_grasping/curobo_fr3_algr_zed2i/trajopt_batch.py):
 the shape check of `matrix_to_quat_wxyz`, the start-configuration limit
 check, the velocities rebuilt by finite differences when trajectory
 optimisation did not run, and the velocity over-limit rescale factor.

 The robot's joint limits are read from a YAML robot description in the
 source; here they are parameters. A trajectory is a matrix with one row per
 timestep and one column per joint.
 */
module Trajectory {
  import opened Outcome
  import opened RealSeqs

  // Messages of the exceptions raised below.
  const OutOfLimitsMessage := "q_starts out of joint limits!"
  const ZeroSizeMessage := "zero-size array reduction"

  /** 7 arm joints and 16 hand joints. */
  const NumJoints: nat := 23

  /** How far outside its limits a start configuration may lie and still be clamped (1e-4). */
  const LimitSlack: real := 0.0001

  /** The magnitude below which a velocity counts as "not populated" (1e-4). */
  const UnpopulatedSpeed: real := 0.0001

  /** Per-joint lower and upper limits: row 0 and row 1 of a (2, 23) limits tensor. */
  datatype Limits = Limits(lo: seq<real>, hi: seq<real>)

  // ---------------------------------------------------------------------
  // matrix_to_quat_wxyz

  /**
   The shape check of `matrix_to_quat_wxyz` and the shape of its result:
   the last two dimensions must both be 3 (reading a dimension the tensor
   does not have raises IndexError), and each 3x3 matrix becomes 4 values.
   */
  function QuatShape(shape: seq<nat>): (r: Result<seq<nat>>)
    ensures r.Ok? <==> |shape| >= 2 && shape[|shape| - 1] == 3 && shape[|shape| - 2] == 3
    ensures |shape| >= 1 && shape[|shape| - 1] != 3 ==> r.Err? && r.error.ValueError?
    ensures r.Ok? ==> |r.value| == |shape| - 1 && r.value[|r.value| - 1] == 4
  {
    var _ :- Need(|shape| >= 1, IndexError("matrix.size(-1)"));
    if shape[|shape| - 1] != 3 then Err(ValueError("rotation matrix shape"))
    else
      var _ :- Need(|shape| >= 2, IndexError("matrix.size(-2)"));
      var _ :- Need(shape[|shape| - 2] == 3, ValueError("rotation matrix shape"));
      Ok(shape[..|shape| - 2] + [4])
  }

  // ---------------------------------------------------------------------
  // Start configurations against the joint limits

  /** Every entry lies within its joint's limits, ends included. */
  predicate WithinLimits(q: seq<seq<real>>, lim: Limits)
    requires HasWidth(q, NumJoints) && |lim.lo| == NumJoints && |lim.hi| == NumJoints
  {
    forall b, j :: 0 <= b < |q| && 0 <= j < NumJoints ==> lim.lo[j] <= q[b][j] <= lim.hi[j]
  }

  /** Every entry lies strictly inside its joint's limits widened by the slack. */
  predicate NearLimits(q: seq<seq<real>>, lim: Limits)
    requires HasWidth(q, NumJoints) && |lim.lo| == NumJoints && |lim.hi| == NumJoints
  {
    forall b, j :: 0 <= b < |q| && 0 <= j < NumJoints ==> lim.lo[j] - LimitSlack < q[b][j] < lim.hi[j] + LimitSlack
  }

  /** `torch.clamp(q, lo + eps, hi - eps)`. */
  function ClampToLimits(q: seq<seq<real>>, lim: Limits): (r: seq<seq<real>>)
    requires HasWidth(q, NumJoints) && |lim.lo| == NumJoints && |lim.hi| == NumJoints
    ensures |r| == |q| && HasWidth(r, NumJoints)
    ensures forall b, j :: 0 <= b < |q| && 0 <= j < NumJoints ==> r[b][j] == Clamp(q[b][j], lim.lo[j] + LimitSlack, lim.hi[j] - LimitSlack)
  {
    seq(|q|, b requires 0 <= b < |q| =>
      seq(NumJoints, j requires 0 <= j < NumJoints => Clamp(q[b][j], lim.lo[j] + LimitSlack, lim.hi[j] - LimitSlack)))
  }

  /**
   The CHECK_JOINT_LIMITS block: start configurations within limits pass
   unchanged; ones outside but strictly within the slack of the limits are
   clamped to the limits pulled in by the slack; any other is rejected.
   A row that is not 23 wide cannot be compared with the limits.
   */
  function CheckStartConfigs(qStarts: seq<seq<real>>, lim: Limits): (r: Result<seq<seq<real>>>)
    ensures r.Ok? ==> |lim.lo| == NumJoints && |lim.hi| == NumJoints && HasWidth(qStarts, NumJoints)
    ensures r.Ok? ==> |r.value| == |qStarts| && HasWidth(r.value, NumJoints)
    ensures r.Ok? && WithinLimits(qStarts, lim) ==> r.value == qStarts
    ensures r.Ok? && !WithinLimits(qStarts, lim) ==> NearLimits(qStarts, lim) && r.value == ClampToLimits(qStarts, lim)
  {
    var _ :- Check(|lim.lo| == NumJoints && |lim.hi| == NumJoints, "joint_limits shape");
    var _ :- Need(HasWidth(qStarts, NumJoints), RuntimeError("q_starts shape"));
    if WithinLimits(qStarts, lim) then Ok(qStarts)
    else if NearLimits(qStarts, lim) then Ok(ClampToLimits(qStarts, lim))
    else Err(ValueError(OutOfLimitsMessage))
  }

  /** Limits at least twice the slack apart, so that pulling them in by the slack leaves a nonempty range. */
  predicate WideLimits(lim: Limits)
    requires |lim.lo| == NumJoints && |lim.hi| == NumJoints
  {
    forall j :: 0 <= j < NumJoints ==> lim.lo[j] + 2.0 * LimitSlack <= lim.hi[j]
  }

  /**
   Once the shapes fit, the check fails exactly when some entry lies at
   least the slack outside its limits, and then with ValueError.
   */
  lemma StartConfigsRejectIff(qStarts: seq<seq<real>>, lim: Limits)
    requires |lim.lo| == NumJoints && |lim.hi| == NumJoints && HasWidth(qStarts, NumJoints)
    ensures CheckStartConfigs(qStarts, lim).Err? <==>
              exists b, j :: 0 <= b < |qStarts| && 0 <= j < NumJoints
                && (qStarts[b][j] <= lim.lo[j] - LimitSlack || qStarts[b][j] >= lim.hi[j] + LimitSlack)
    ensures CheckStartConfigs(qStarts, lim).Err? ==> CheckStartConfigs(qStarts, lim).error.ValueError?
  {
    if !NearLimits(qStarts, lim) {
      assert !WithinLimits(qStarts, lim);
    }
  }

  /** With wide limits, whatever the check lets through lies within the limits. */
  lemma StartConfigsEndWithinLimits(qStarts: seq<seq<real>>, lim: Limits)
    requires CheckStartConfigs(qStarts, lim).Ok?
    requires WideLimits(lim)
    ensures WithinLimits(CheckStartConfigs(qStarts, lim).value, lim)
  {
  }

  /**
   With wide limits, a configuration that was clamped ends at least the
   slack inside its limits, each entry moved no further than the nearer
   pulled-in limit.
   */
  lemma ClampedKeepsMargin(qStarts: seq<seq<real>>, lim: Limits)
    requires CheckStartConfigs(qStarts, lim).Ok?
    requires WideLimits(lim)
    requires !WithinLimits(qStarts, lim)
    ensures var q := CheckStartConfigs(qStarts, lim).value;
            forall b, j :: 0 <= b < |q| && 0 <= j < NumJoints ==>
              lim.lo[j] + LimitSlack <= q[b][j] <= lim.hi[j] - LimitSlack
              && (qStarts[b][j] < lim.lo[j] + LimitSlack ==> q[b][j] == lim.lo[j] + LimitSlack)
              && (qStarts[b][j] > lim.hi[j] - LimitSlack ==> q[b][j] == lim.hi[j] - LimitSlack)
              && (lim.lo[j] + LimitSlack <= qStarts[b][j] <= lim.hi[j] - LimitSlack ==> q[b][j] == qStarts[b][j])
  {
  }

  /** With wide limits, checking a checked configuration again changes nothing. */
  lemma StartConfigsIdempotent(qStarts: seq<seq<real>>, lim: Limits)
    requires CheckStartConfigs(qStarts, lim).Ok?
    requires WideLimits(lim)
    ensures var q := CheckStartConfigs(qStarts, lim).value;
            CheckStartConfigs(q, lim) == Ok(q)
  {
    StartConfigsEndWithinLimits(qStarts, lim);
  }

  // ---------------------------------------------------------------------
  // Velocities without trajectory optimisation

  /** `np.diff(q, axis=0) / dt`: one row per consecutive pair of rows. */
  function Diff(q: seq<seq<real>>, dt: real): (d: seq<seq<real>>)
    requires HasWidth(q, NumJoints) && dt != 0.0
    ensures |d| == if |q| == 0 then 0 else |q| - 1
    ensures HasWidth(d, NumJoints)
  {
    if |q| == 0 then []
    else
      seq(|q| - 1, i requires 0 <= i < |q| - 1 =>
        seq(NumJoints, j requires 0 <= j < NumJoints => (q[i + 1][j] - q[i][j]) / dt))
  }

  /** The rebuilt velocities and the timestep. */
  datatype Velocities = Velocities(qd: seq<seq<real>>, dt: real)

  /**
   The branch of `get_trajectories_from_result` for a path planned without
   trajectory optimisation: the planner's velocities must be unpopulated,
   its interpolation step too coarse, and a trajectory time given. The
   timestep is that time over the number of waypoints, the velocities are
   forward differences, and the last one is repeated so that they have the
   positions' shape. With a single waypoint there is no difference and the
   shape check fails; a zero trajectory time divides by zero, which numpy
   turns into infinities.
   */
  function NoTrajoptVelocities(q: seq<seq<real>>, plannedQd: seq<seq<real>>, interpolationDt: real, trajectoryTime: Option<real>)
    : (r: Result<Velocities>)
    ensures r.Ok? ==> |r.value.qd| == |q| && HasWidth(r.value.qd, NumJoints)
    ensures r.Ok? ==> |q| >= 2 && trajectoryTime.Some? && r.value.dt * (|q| as real) == trajectoryTime.value
  {
    var n := |q|;
    var _ :- Check(HasWidth(q, NumJoints), "q.shape");
    var _ :- Check(forall t, j :: 0 <= t < |plannedQd| && 0 <= j < |plannedQd[t]| ==> Abs(plannedQd[t][j]) < UnpopulatedSpeed,
                   "qd not populated");
    var _ :- Check(n as real * interpolationDt > 60.0, "interpolation_dt too big");
    var _ :- Check(trajectoryTime.Some?, "trajectory time given");
    var total := trajectoryTime.value;
    if n == 1 then Err(AssertionError("qd.shape == q.shape"))
    else if total == 0.0 then Err(NonFinite("dt == 0"))
    else
      var dt := total / n as real;
      var d := Diff(q, dt);
      Ok(Velocities(d + [d[|d| - 1]], dt))
  }

  /** A path with a single waypoint always fails the final shape check. */
  lemma SingleWaypointFails(q: seq<seq<real>>, plannedQd: seq<seq<real>>, interpolationDt: real, trajectoryTime: Option<real>)
    requires |q| == 1
    ensures NoTrajoptVelocities(q, plannedQd, interpolationDt, trajectoryTime).Err?
    ensures NoTrajoptVelocities(q, plannedQd, interpolationDt, trajectoryTime).error.AssertionError?
  {
  }

  /** Every row of `qd` but the last carries the positions one step of `dt` further. */
  predicate Steps(q: seq<seq<real>>, qd: seq<seq<real>>, dt: real)
    requires HasWidth(q, NumJoints) && HasWidth(qd, NumJoints) && |qd| == |q|
  {
    forall i, j :: 0 <= i < |q| - 1 && 0 <= j < NumJoints ==> q[i + 1][j] == q[i][j] + dt * qd[i][j]
  }

  /**
   Each velocity row but the last carries the position one step further,
   q[i+1] = q[i] + dt * qd[i], and the last row repeats the one before.
   */
  lemma VelocitiesStep(q: seq<seq<real>>, plannedQd: seq<seq<real>>, interpolationDt: real, trajectoryTime: Option<real>)
    requires NoTrajoptVelocities(q, plannedQd, interpolationDt, trajectoryTime).Ok?
    ensures var v := NoTrajoptVelocities(q, plannedQd, interpolationDt, trajectoryTime).value;
            && HasWidth(q, NumJoints)
            && Steps(q, v.qd, v.dt)
            && v.qd[|q| - 1] == v.qd[|q| - 2]
  {
    var v := NoTrajoptVelocities(q, plannedQd, interpolationDt, trajectoryTime).value;
    VelocitiesAreDiff(q, plannedQd, interpolationDt, trajectoryTime);
    StepsOfDiff(q, v.dt, v.qd);
  }

  /** The velocities are the forward differences with the last one repeated. */
  lemma VelocitiesAreDiff(q: seq<seq<real>>, plannedQd: seq<seq<real>>, interpolationDt: real, trajectoryTime: Option<real>)
    requires NoTrajoptVelocities(q, plannedQd, interpolationDt, trajectoryTime).Ok?
    ensures var v := NoTrajoptVelocities(q, plannedQd, interpolationDt, trajectoryTime).value;
            && HasWidth(q, NumJoints) && |q| >= 2 && v.dt != 0.0
            && v.qd == Diff(q, v.dt) + [Diff(q, v.dt)[|q| - 2]]
  {
  }

  /** Forward differences with the last one repeated carry each row to the next. */
  lemma StepsOfDiff(q: seq<seq<real>>, dt: real, qd: seq<seq<real>>)
    requires HasWidth(q, NumJoints) && |q| >= 2 && dt != 0.0
    requires qd == Diff(q, dt) + [Diff(q, dt)[|q| - 2]]
    ensures HasWidth(qd, NumJoints) && |qd| == |q|
    ensures Steps(q, qd, dt) && qd[|q| - 1] == qd[|q| - 2]
  {
    var d := Diff(q, dt);
    forall i, j | 0 <= i < |q| - 1 && 0 <= j < NumJoints
      ensures q[i + 1][j] == q[i][j] + dt * qd[i][j]
    {
      assert qd[i] == d[i];
      DiffAt(q, dt, i, j);
      UndoDivide(q[i + 1][j] - q[i][j], dt);
    }
  }

  lemma DiffAt(q: seq<seq<real>>, dt: real, i: nat, j: nat)
    requires HasWidth(q, NumJoints) && dt != 0.0
    requires i < |q| - 1 && j < NumJoints
    ensures Diff(q, dt)[i][j] == (q[i + 1][j] - q[i][j]) / dt
  {
  }

  lemma UndoDivide(x: real, dt: real)
    requires dt != 0.0
    ensures dt * (x / dt) == x
  {
  }

  /**
   Integrating the velocities from the first waypoint gives back every
   waypoint: q[i][j] = q[0][j] + dt * (qd[0][j] + ... + qd[i-1][j]).
   */
  lemma VelocitiesIntegrate(q: seq<seq<real>>, plannedQd: seq<seq<real>>, interpolationDt: real, trajectoryTime: Option<real>,
                            i: nat, j: nat)
    requires NoTrajoptVelocities(q, plannedQd, interpolationDt, trajectoryTime).Ok?
    requires i < |q| && j < NumJoints
    ensures var v := NoTrajoptVelocities(q, plannedQd, interpolationDt, trajectoryTime).value;
            q[i][j] == q[0][j] + v.dt * Sum(Column(v.qd, j)[..i])
  {
    var v := NoTrajoptVelocities(q, plannedQd, interpolationDt, trajectoryTime).value;
    VelocitiesStep(q, plannedQd, interpolationDt, trajectoryTime);
    IntegrateSteps(q, v.qd, v.dt, i, j);
  }

  /** Positions advanced by dt times each velocity are the start plus dt times the running sum. */
  lemma {:induction false} IntegrateSteps(q: seq<seq<real>>, qd: seq<seq<real>>, dt: real, i: nat, j: nat)
    requires HasWidth(q, NumJoints) && HasWidth(qd, NumJoints) && |qd| == |q|
    requires Steps(q, qd, dt)
    requires i < |q| && j < NumJoints
    ensures q[i][j] == q[0][j] + dt * Sum(Column(qd, j)[..i])
    decreases i
  {
    var c := Column(qd, j);
    if i == 0 {
      assert c[..0] == [];
    } else {
      IntegrateSteps(q, qd, dt, i - 1, j);
      assert c[..i] == c[..i - 1] + [c[i - 1]];
      SumAppend(c[..i - 1], [c[i - 1]]);
      assert Sum([c[i - 1]]) == c[i - 1];
      assert q[i][j] == q[i - 1][j] + dt * c[i - 1];
    }
  }

  // ---------------------------------------------------------------------
  // Over-limit rescale factor

  /** Limits of the right shape with every lower limit negative and every upper limit positive. */
  predicate SignedLimits(lim: Limits) {
    && |lim.lo| == NumJoints && |lim.hi| == NumJoints
    && (forall j :: 0 <= j < NumJoints ==> lim.lo[j] < 0.0)
    && (forall j :: 0 <= j < NumJoints ==> lim.hi[j] > 0.0)
  }

  /** How far a joint's least value lies below its (negative) lower limit, as a factor; 1 when it does not. */
  function UnderScale(least: real, lo: real): (s: real)
    requires lo < 0.0
    ensures s >= 1.0
    ensures s > 1.0 <==> least < lo
  {
    if least < lo then Abs(least / lo) else 1.0
  }

  /** Scaling the lower limit by the overshoot factor reaches the least value. */
  lemma UnderScaleReaches(least: real, lo: real)
    requires lo < 0.0 && least < lo
    ensures UnderScale(least, lo) * lo == least
  {
  }

  /** How far a joint's greatest value lies above its (positive) upper limit, as a factor; 1 when it does not. */
  function OverScale(greatest: real, hi: real): (s: real)
    requires hi > 0.0
    ensures s >= 1.0
    ensures s > 1.0 <==> greatest > hi
  {
    if greatest > hi then Abs(greatest / hi) else 1.0
  }

  /** Scaling the upper limit by the overshoot factor reaches the greatest value. */
  lemma OverScaleReaches(greatest: real, hi: real)
    requires hi > 0.0 && greatest > hi
    ensures OverScale(greatest, hi) * hi == greatest
  {
  }

  /** Per joint, the factor by which its least velocity overshoots the lower limit. */
  function UnderScales(qd: seq<seq<real>>, vel: Limits): (u: seq<real>)
    requires |qd| > 0 && HasWidth(qd, NumJoints) && SignedLimits(vel)
    ensures |u| == NumJoints
    ensures forall j :: 0 <= j < NumJoints ==> u[j] == UnderScale(Min(Column(qd, j)), vel.lo[j])
  {
    seq(NumJoints, j requires 0 <= j < NumJoints => UnderScale(Min(Column(qd, j)), vel.lo[j]))
  }

  /** Per joint, the factor by which its greatest velocity overshoots the upper limit. */
  function OverScales(qd: seq<seq<real>>, vel: Limits): (o: seq<real>)
    requires |qd| > 0 && HasWidth(qd, NumJoints) && SignedLimits(vel)
    ensures |o| == NumJoints
    ensures forall j :: 0 <= j < NumJoints ==> o[j] == OverScale(Max(Column(qd, j)), vel.hi[j])
  {
    seq(NumJoints, j requires 0 <= j < NumJoints => OverScale(Max(Column(qd, j)), vel.hi[j]))
  }

  /** The rescale factor of one trajectory: the largest overshoot over all joints and both limits. */
  function OverLimitFactor(qd: seq<seq<real>>, vel: Limits): (f: real)
    requires |qd| > 0 && HasWidth(qd, NumJoints) && SignedLimits(vel)
    ensures f >= 1.0
  {
    Max2(Max(UnderScales(qd, vel)), Max(OverScales(qd, vel)))
  }

  /** Some velocity of the trajectory lies outside its joint's limits. */
  predicate Violates(qd: seq<seq<real>>, vel: Limits)
    requires HasWidth(qd, NumJoints) && SignedLimits(vel)
  {
    exists t, j :: 0 <= t < |qd| && 0 <= j < NumJoints && (qd[t][j] < vel.lo[j] || qd[t][j] > vel.hi[j])
  }

  /** The factor exceeds one exactly when some velocity lies outside its limits. */
  lemma FactorExceedsOneIff(qd: seq<seq<real>>, vel: Limits)
    requires |qd| > 0 && HasWidth(qd, NumJoints) && SignedLimits(vel)
    ensures OverLimitFactor(qd, vel) > 1.0 <==> Violates(qd, vel)
  {
    if Violates(qd, vel) {
      ViolationRaisesFactor(qd, vel);
    }
    if OverLimitFactor(qd, vel) > 1.0 {
      FactorShowsViolation(qd, vel);
    }
  }

  lemma ViolationRaisesFactor(qd: seq<seq<real>>, vel: Limits)
    requires |qd| > 0 && HasWidth(qd, NumJoints) && SignedLimits(vel)
    requires Violates(qd, vel)
    ensures OverLimitFactor(qd, vel) > 1.0
  {
    var t, j :| 0 <= t < |qd| && 0 <= j < NumJoints && (qd[t][j] < vel.lo[j] || qd[t][j] > vel.hi[j]);
    if qd[t][j] < vel.lo[j] {
      UnderRaisesFactor(qd, vel, t, j);
    } else {
      OverRaisesFactor(qd, vel, t, j);
    }
  }

  lemma UnderRaisesFactor(qd: seq<seq<real>>, vel: Limits, t: nat, j: nat)
    requires |qd| > 0 && HasWidth(qd, NumJoints) && SignedLimits(vel)
    requires t < |qd| && j < NumJoints && qd[t][j] < vel.lo[j]
    ensures Max(UnderScales(qd, vel)) > 1.0
  {
    var u := UnderScales(qd, vel);
    var c := Column(qd, j);
    assert c[t] == qd[t][j];
    assert u[j] == UnderScale(Min(c), vel.lo[j]);
    assert u[j] > 1.0;
  }

  lemma OverRaisesFactor(qd: seq<seq<real>>, vel: Limits, t: nat, j: nat)
    requires |qd| > 0 && HasWidth(qd, NumJoints) && SignedLimits(vel)
    requires t < |qd| && j < NumJoints && qd[t][j] > vel.hi[j]
    ensures Max(OverScales(qd, vel)) > 1.0
  {
    var o := OverScales(qd, vel);
    var c := Column(qd, j);
    assert c[t] == qd[t][j];
    assert o[j] == OverScale(Max(c), vel.hi[j]);
    assert o[j] > 1.0;
  }

  lemma FactorShowsViolation(qd: seq<seq<real>>, vel: Limits)
    requires |qd| > 0 && HasWidth(qd, NumJoints) && SignedLimits(vel)
    requires OverLimitFactor(qd, vel) > 1.0
    ensures Violates(qd, vel)
  {
    if Max(UnderScales(qd, vel)) > 1.0 {
      UnderShowsViolation(qd, vel);
    } else {
      OverShowsViolation(qd, vel);
    }
  }

  lemma UnderShowsViolation(qd: seq<seq<real>>, vel: Limits)
    requires |qd| > 0 && HasWidth(qd, NumJoints) && SignedLimits(vel)
    requires Max(UnderScales(qd, vel)) > 1.0
    ensures Violates(qd, vel)
  {
    var u := UnderScales(qd, vel);
    var j :| 0 <= j < |u| && u[j] == Max(u);
    var c := Column(qd, j);
    assert UnderScale(Min(c), vel.lo[j]) > 1.0;
    var t :| 0 <= t < |c| && c[t] == Min(c);
    assert c[t] == qd[t][j] && 0 <= t < |qd|;
    ViolationAt(qd, vel, t, j);
  }

  lemma OverShowsViolation(qd: seq<seq<real>>, vel: Limits)
    requires |qd| > 0 && HasWidth(qd, NumJoints) && SignedLimits(vel)
    requires Max(OverScales(qd, vel)) > 1.0
    ensures Violates(qd, vel)
  {
    var o := OverScales(qd, vel);
    var j :| 0 <= j < |o| && o[j] == Max(o);
    var c := Column(qd, j);
    assert OverScale(Max(c), vel.hi[j]) > 1.0;
    var t :| 0 <= t < |c| && c[t] == Max(c);
    assert c[t] == qd[t][j] && 0 <= t < |qd|;
    ViolationAt(qd, vel, t, j);
  }

  /** One velocity outside its joint's limits is a violation. */
  lemma ViolationAt(qd: seq<seq<real>>, vel: Limits, t: nat, j: nat)
    requires HasWidth(qd, NumJoints) && SignedLimits(vel)
    requires t < |qd| && j < NumJoints && (qd[t][j] < vel.lo[j] || qd[t][j] > vel.hi[j])
    ensures Violates(qd, vel)
  {
  }

  /**
   One joint's velocity v, between the joint's least and greatest
   velocities, lands within the joint's limits when divided by any factor
   at least one and at least both of the joint's overshoot factors.
   */
  lemma JointRescaled(v: real, least: real, greatest: real, lo: real, hi: real, f: real)
    requires lo < 0.0 < hi && least <= v <= greatest && f >= 1.0
    requires f >= UnderScale(least, lo) && f >= OverScale(greatest, hi)
    ensures lo <= v / f <= hi
  {
    if v >= 0.0 {
      DivideShrinks(v, f);
      if v > hi {
        OverScaleReaches(greatest, hi);
        DivideBelow(v, OverScale(greatest, hi), f, hi);
      }
    } else {
      DivideShrinks(-v, f);
      assert v / f == -((-v) / f);
      if v < lo {
        UnderScaleReaches(least, lo);
        NegateProduct(UnderScale(least, lo), lo);
        DivideBelow(-v, UnderScale(least, lo), f, -lo);
      }
    }
  }

  /** Dividing a nonnegative value by a factor of at least one keeps it between zero and itself. */
  lemma DivideShrinks(v: real, f: real)
    requires v >= 0.0 && f >= 1.0
    ensures 0.0 <= v / f <= v
  {
    var q := v / f;
    assert q * f == v;
    if q > v {
      assert q * f > v * f;
      assert v * f >= v;
    }
  }

  lemma NegateProduct(s: real, c: real)
    ensures s * (-c) == -(s * c)
  {
  }

  /** A value at most s * c, for c > 0, lands at most c once divided by any f >= s with f > 0. */
  lemma DivideBelow(v: real, s: real, f: real, c: real)
    requires c > 0.0 && f > 0.0 && s <= f && v <= s * c
    ensures v / f <= c
  {
    assert s * c <= f * c;
    var q := v / f;
    assert q * f == v;
    if q > c {
      assert q * f > c * f;
    }
  }

  /**
   Dividing every velocity by the factor brings every joint within its
   limits: the rescale the factor is computed for.
   */
  lemma RescaledWithinLimits(qd: seq<seq<real>>, vel: Limits, t: nat, j: nat)
    requires |qd| > 0 && HasWidth(qd, NumJoints) && SignedLimits(vel)
    requires t < |qd| && j < NumJoints
    ensures vel.lo[j] <= qd[t][j] / OverLimitFactor(qd, vel) <= vel.hi[j]
  {
    var f := OverLimitFactor(qd, vel);
    var u, o := UnderScales(qd, vel), OverScales(qd, vel);
    var c := Column(qd, j);
    assert c[t] == qd[t][j];
    assert u[j] <= Max(u) && o[j] <= Max(o);
    JointRescaled(qd[t][j], Min(c), Max(c), vel.lo[j], vel.hi[j], f);
  }

  /**
   `compute_over_limit_factors`. The timesteps and the acceleration and jerk
   limits are checked for shape and sign, but only the velocities decide a
   factor; the accelerations and jerks the source computes from them only
   decide whether the reductions over them fail, which happens exactly for
   fewer than three timesteps.
   */
  function ComputeOverLimitFactors(qds: seq<seq<seq<real>>>, dts: seq<real>, vel: Limits, acc: Limits, jerk: Limits)
    : (r: Result<seq<real>>)
    ensures r.Ok? ==> |r.value| == |qds| && SignedLimits(vel)
    ensures r.Ok? ==> forall i :: 0 <= i < |qds| ==> |qds[i]| >= 3 && HasWidth(qds[i], NumJoints)
    ensures r.Ok? ==> forall i :: 0 <= i < |qds| ==> r.value[i] == OverLimitFactor(qds[i], vel)
  {
    var _ :- Check(|dts| == |qds|, "len(dts) == n_trajs");
    var _ :- Check(forall i :: 0 <= i < |qds| ==> HasWidth(qds[i], NumJoints), "qd.shape[1] == 23");
    var _ :- Check(|vel.lo| == NumJoints && |vel.hi| == NumJoints, "qd_limits shape");
    var _ :- Check(|acc.lo| == NumJoints && |acc.hi| == NumJoints, "qdd_limits shape");
    var _ :- Check(|jerk.lo| == NumJoints && |jerk.hi| == NumJoints, "qddd_limits shape");
    var _ :- Check(SignedLimits(vel), "qd_limits signs");
    var _ :- Check(SignedLimits(acc), "qdd_limits signs");
    var _ :- Check(SignedLimits(jerk), "qddd_limits signs");
    var _ :- Need(forall i :: 0 <= i < |qds| ==> |qds[i]| >= 3,
                  ValueError(ZeroSizeMessage));
    Ok(seq(|qds|, i requires 0 <= i < |qds| => OverLimitFactor(qds[i], vel)))
  }

  /** Once the limits pass their checks, a trajectory of fewer than three timesteps makes the whole call fail with ValueError. */
  lemma ShortTrajectoryFails(qds: seq<seq<seq<real>>>, dts: seq<real>, vel: Limits, acc: Limits, jerk: Limits, i: nat)
    requires i < |qds| && |qds[i]| < 3
    ensures ComputeOverLimitFactors(qds, dts, vel, acc, jerk).Err?
    ensures SignedLimits(vel) && SignedLimits(acc) && SignedLimits(jerk) && |dts| == |qds|
            && (forall k :: 0 <= k < |qds| ==> HasWidth(qds[k], NumJoints))
            ==> ComputeOverLimitFactors(qds, dts, vel, acc, jerk).error.ValueError?
  {
  }

  /**
   Neither the timesteps nor the acceleration and jerk limits change any
   factor, as long as they pass their checks.
   */
  lemma FactorsIgnoreAccelerationAndJerk(qds: seq<seq<seq<real>>>, dts: seq<real>, dts': seq<real>, vel: Limits,
                                         acc: Limits, jerk: Limits, acc': Limits, jerk': Limits)
    requires |dts| == |dts'|
    requires SignedLimits(acc) && SignedLimits(jerk) && SignedLimits(acc') && SignedLimits(jerk')
    ensures ComputeOverLimitFactors(qds, dts, vel, acc, jerk) == ComputeOverLimitFactors(qds, dts', vel, acc', jerk')
  {
  }

  /** Each factor is at least one, and divides its trajectory's velocities into the limits. */
  lemma FactorsRescaleIntoLimits(qds: seq<seq<seq<real>>>, dts: seq<real>, vel: Limits, acc: Limits, jerk: Limits, i: nat, t: nat, j: nat)
    requires ComputeOverLimitFactors(qds, dts, vel, acc, jerk).Ok?
    requires i < |qds| && t < |qds[i]| && j < NumJoints
    ensures var f := ComputeOverLimitFactors(qds, dts, vel, acc, jerk).value[i];
            f >= 1.0 && vel.lo[j] <= qds[i][t][j] / f <= vel.hi[j]
  {
    RescaledWithinLimits(qds[i], vel, t, j);
  }
}
