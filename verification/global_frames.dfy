/**
 The per-half coordinate frame of a NeRF grid (`get_global_params`), the
 reflection step of `invariance_transformation`, and the concatenation of the
 frame vectors into one feature row (Train_NeRF_Grasp_Metric.py).

 A tuple of (B, 3) tensors is a `Params` value: its outer sequence is the
 tuple, its inner sequence the batch.
 */
module GlobalFrames {
  import opened Outcome
  import opened RealSeqs
  import opened NerfGrid

  datatype Vec3 = Vec3(x: real, y: real, z: real)

  type Params = seq<seq<Vec3>>

  function Add(a: Vec3, b: Vec3): Vec3
  {
    Vec3(a.x + b.x, a.y + b.y, a.z + b.z)
  }

  function Sub(a: Vec3, b: Vec3): Vec3
  {
    Vec3(a.x - b.x, a.y - b.y, a.z - b.z)
  }

  function Cross(a: Vec3, b: Vec3): Vec3
  {
    Vec3(a.y * b.z - a.z * b.y, a.z * b.x - a.x * b.z, a.x * b.y - a.y * b.x)
  }

  /** `torch.isclose(a, b, rtol=1e-3, atol=1e-3)` on one component. */
  predicate IsClose(a: real, b: real)
  {
    Abs(a - b) <= 0.001 + 0.001 * Abs(b)
  }

  predicate IsCloseVec(a: Vec3, b: Vec3)
  {
    IsClose(a.x, b.x) && IsClose(a.y, b.y) && IsClose(a.z, b.z)
  }

  /** One example of a points tensor of shape (B, 3, nx, 21, 37). */
  predicate IsPoints(p: Example, nx: nat)
  {
    |p| == NumXyz && forall c :: 0 <= c < NumXyz ==> IsGrid(p[c], nx, NumPtsY, NumPtsZ)
  }

  /** The points tensor has the shape `get_global_params` asserts: x extent 41 or 83. */
  predicate IsPointsBatch(points: seq<Example>)
  {
    (forall b :: 0 <= b < |points| ==> IsPoints(points[b], NumPtsPerSide)) ||
    (forall b :: 0 <= b < |points| ==> IsPoints(points[b], NumPtsX))
  }

  /** The xyz coordinates stored at grid index (i, j, k). */
  function PointAt(p: Example, i: nat, j: nat, k: nat): Vec3
    requires |p| == NumXyz
    requires forall c :: 0 <= c < NumXyz ==> i < |p[c]| && j < |p[c][i]| && k < |p[c][i][j]|
  {
    Vec3(p[0][i][j][k], p[1][i][j][k], p[2][i][j][k])
  }

  /** The grid index of the new origin: x index 0, the middle of y and z. */
  const OriginI: nat := 0
  const OriginJ: nat := NumPtsY / 2
  const OriginK: nat := NumPtsZ / 2

  function Origin(p: Example): Vec3
    requires IsPoints(p, NumPtsPerSide) || IsPoints(p, NumPtsX)
  {
    PointAt(p, OriginI, OriginJ, OriginK)
  }

  /** The offset from the origin to its neighbour one x step further. */
  function XOffset(p: Example): Vec3
    requires IsPoints(p, NumPtsPerSide) || IsPoints(p, NumPtsX)
  {
    Sub(PointAt(p, OriginI + 1, OriginJ, OriginK), Origin(p))
  }

  function YOffset(p: Example): Vec3
    requires IsPoints(p, NumPtsPerSide) || IsPoints(p, NumPtsX)
  {
    Sub(PointAt(p, OriginI, OriginJ + 1, OriginK), Origin(p))
  }

  function ZOffset(p: Example): Vec3
    requires IsPoints(p, NumPtsPerSide) || IsPoints(p, NumPtsX)
  {
    Sub(PointAt(p, OriginI, OriginJ, OriginK + 1), Origin(p))
  }

  lemma PointsOfBatch(points: seq<Example>, b: nat)
    requires IsPointsBatch(points) && b < |points|
    ensures IsPoints(points[b], NumPtsPerSide) || IsPoints(points[b], NumPtsX)
  {
  }

  /**
   `get_global_params`: per example, the origin point and the normalised x and
   y axes of the grid; the z axis must agree with x × y up to the `isclose`
   tolerance. `normalize` is `nn.functional.normalize`.
   */
  function GetGlobalParams(points: seq<Example>, normalize: Vec3 -> Vec3): (r: Result<Params>)
    ensures r.Ok? ==> IsPointsBatch(points)
    ensures r.Ok? ==> |r.value| == 3 && forall t :: 0 <= t < 3 ==> |r.value[t]| == |points|
    ensures r.Ok? ==> forall b :: 0 <= b < |points| ==>
      IsCloseVec(Cross(r.value[1][b], r.value[2][b]), normalize(ZOffset(points[b])))
    ensures IsPointsBatch(points) && r.Err? ==>
      exists b :: 0 <= b < |points| &&
        !IsCloseVec(Cross(normalize(XOffset(points[b])), normalize(YOffset(points[b]))), normalize(ZOffset(points[b])))
  {
    if !IsPointsBatch(points) then Err(AssertionError("nerf_points shape"))
    else
      var origin := seq(|points|, b requires 0 <= b < |points| => Origin(points[b]));
      var xAxis := seq(|points|, b requires 0 <= b < |points| => normalize(XOffset(points[b])));
      var yAxis := seq(|points|, b requires 0 <= b < |points| => normalize(YOffset(points[b])));
      var zAxis := seq(|points|, b requires 0 <= b < |points| => normalize(ZOffset(points[b])));
      if forall b :: 0 <= b < |points| ==> IsCloseVec(Cross(xAxis[b], yAxis[b]), zAxis[b]) then
        Ok([origin, xAxis, yAxis])
      else Err(AssertionError("z axis is not x cross y"))
  }

  /** The frame of example b: origin at grid index (0, 10, 18), axes toward its x and y neighbours. */
  lemma GlobalParamsAt(points: seq<Example>, normalize: Vec3 -> Vec3, b: nat)
    requires GetGlobalParams(points, normalize).Ok? && b < |points|
    ensures var params := GetGlobalParams(points, normalize).value;
      params[0][b] == PointAt(points[b], 0, 10, 18) &&
      params[1][b] == normalize(Sub(PointAt(points[b], 1, 10, 18), PointAt(points[b], 0, 10, 18))) &&
      params[2][b] == normalize(Sub(PointAt(points[b], 0, 11, 18), PointAt(points[b], 0, 10, 18)))
  {
    PointsOfBatch(points, b);
    assert XOffset(points[b]) == Sub(PointAt(points[b], 1, 10, 18), PointAt(points[b], 0, 10, 18));
    assert YOffset(points[b]) == Sub(PointAt(points[b], 0, 11, 18), PointAt(points[b], 0, 10, 18));
  }

  /** Coordinate c of a vector. */
  function Component(v: Vec3, c: nat): real
  {
    if c == 0 then v.x else if c == 1 then v.y else v.z
  }

  /** Every coordinate channel of one example shifted by the vector `t`. */
  function TranslateExample(p: Example, t: Vec3): (r: Example)
    ensures |r| == |p|
  {
    seq(|p|, c requires 0 <= c < |p| => ShiftGrid(p[c], Component(t, c)))
  }

  /** The whole batch of points moved by the vector `t`. */
  function Translate(points: seq<Example>, t: Vec3): (r: seq<Example>)
    ensures |r| == |points|
    ensures forall b :: 0 <= b < |points| ==> r[b] == TranslateExample(points[b], t)
  {
    seq(|points|, b requires 0 <= b < |points| => TranslateExample(points[b], t))
  }

  function ShiftGrid(g: Grid, d: real): (r: Grid)
    ensures |r| == |g|
    ensures forall i :: 0 <= i < |g| ==> |r[i]| == |g[i]|
    ensures forall i, j :: 0 <= i < |g| && 0 <= j < |g[i]| ==> |r[i][j]| == |g[i][j]|
    ensures forall i, j, k :: 0 <= i < |g| && 0 <= j < |g[i]| && 0 <= k < |g[i][j]| ==> r[i][j][k] == g[i][j][k] + d
  {
    seq(|g|, i requires 0 <= i < |g| =>
      seq(|g[i]|, j requires 0 <= j < |g[i]| =>
        seq(|g[i][j]|, k requires 0 <= k < |g[i][j]| => g[i][j][k] + d)))
  }

  lemma TranslateExampleShape(p: Example, t: Vec3, nx: nat)
    requires IsPoints(p, nx)
    ensures IsPoints(TranslateExample(p, t), nx)
  {
  }

  /** A translated example has its origin moved by `t` and the same offsets. */
  lemma TranslateExampleFrame(p: Example, t: Vec3)
    requires IsPoints(p, NumPtsPerSide) || IsPoints(p, NumPtsX)
    ensures IsPoints(TranslateExample(p, t), NumPtsPerSide) || IsPoints(TranslateExample(p, t), NumPtsX)
    ensures Origin(TranslateExample(p, t)) == Add(Origin(p), t)
    ensures XOffset(TranslateExample(p, t)) == XOffset(p)
    ensures YOffset(TranslateExample(p, t)) == YOffset(p)
    ensures ZOffset(TranslateExample(p, t)) == ZOffset(p)
  {
    if IsPoints(p, NumPtsPerSide) {
      TranslateExampleShape(p, t, NumPtsPerSide);
    } else {
      TranslateExampleShape(p, t, NumPtsX);
    }
  }

  lemma TranslateBatchShape(points: seq<Example>, t: Vec3)
    requires IsPointsBatch(points)
    ensures IsPointsBatch(Translate(points, t))
  {
    if forall b :: 0 <= b < |points| ==> IsPoints(points[b], NumPtsPerSide) {
      forall b | 0 <= b < |points|
        ensures IsPoints(Translate(points, t)[b], NumPtsPerSide)
      {
        TranslateExampleShape(points[b], t, NumPtsPerSide);
      }
    } else {
      forall b | 0 <= b < |points|
        ensures IsPoints(Translate(points, t)[b], NumPtsX)
      {
        TranslateExampleShape(points[b], t, NumPtsX);
      }
    }
  }

  /**
   Translating the whole grid moves every origin by the same vector and
   leaves the axes unchanged: the frame depends only on differences of points.
   */
  lemma GlobalParamsTranslate(points: seq<Example>, normalize: Vec3 -> Vec3, t: Vec3)
    requires GetGlobalParams(points, normalize).Ok?
    ensures GetGlobalParams(Translate(points, t), normalize).Ok?
    ensures var p := GetGlobalParams(points, normalize).value;
      var q := GetGlobalParams(Translate(points, t), normalize).value;
      q[1] == p[1] && q[2] == p[2] &&
      forall b :: 0 <= b < |points| ==> q[0][b] == Add(p[0][b], t)
  {
    var moved := Translate(points, t);
    TranslateBatchShape(points, t);
    forall b | 0 <= b < |points|
      ensures Origin(moved[b]) == Add(Origin(points[b]), t)
      ensures XOffset(moved[b]) == XOffset(points[b])
      ensures YOffset(moved[b]) == YOffset(points[b])
      ensures ZOffset(moved[b]) == ZOffset(points[b])
    {
      PointsOfBatch(points, b);
      TranslateExampleFrame(points[b], t);
    }
  }

  /** `v * torch.tensor([1, -1, 1])`: the mirror image in the xz plane. */
  function ReflectY(v: Vec3): (r: Vec3)
    ensures r.x == v.x && r.y == -v.y && r.z == v.z
  {
    Vec3(v.x, -v.y, v.z)
  }

  /** `torch.where(reflect[:, None], v * [1, -1, 1], v)` on a (B, 3) tensor. */
  function ReflectWhere(mask: seq<bool>, v: seq<Vec3>): (r: seq<Vec3>)
    requires |mask| == |v|
    ensures |r| == |v|
  {
    seq(|v|, b requires 0 <= b < |v| => if mask[b] then ReflectY(v[b]) else v[b])
  }

  /** Reflected items have y negated; the others are untouched. */
  lemma ReflectWhereAt(mask: seq<bool>, v: seq<Vec3>, b: nat)
    requires |mask| == |v| && b < |v|
    ensures mask[b] ==> ReflectWhere(mask, v)[b] == Vec3(v[b].x, -v[b].y, v[b].z)
    ensures !mask[b] ==> ReflectWhere(mask, v)[b] == v[b]
  {
  }

  /** Reflecting twice under the same mask is the identity. */
  lemma ReflectWhereInvolution(mask: seq<bool>, v: seq<Vec3>)
    requires |mask| == |v|
    ensures ReflectWhere(mask, ReflectWhere(mask, v)) == v
  {
    assert forall b :: 0 <= b < |v| ==> ReflectWhere(mask, ReflectWhere(mask, v))[b] == v[b];
  }

  /** The coordinates of a vector in the order of its (B, 3) tensor row. */
  function Coords(v: Vec3): (r: seq<real>)
    ensures |r| == 3
  {
    [v.x, v.y, v.z]
  }

  /** Row b of `torch.cat(params, dim=1)`: the vectors of the tuple, one after another. */
  function CatRow(params: Params, b: nat): (r: seq<real>)
    requires forall t :: 0 <= t < |params| ==> b < |params[t]|
    ensures |r| == 3 * |params|
  {
    if |params| == 0 then []
    else Coords(params[0][b]) + CatRow(params[1..], b)
  }

  /** Entry 3t + c of a concatenated row is coordinate c of tuple element t. */
  lemma {:induction false} CatRowAt(params: Params, b: nat, t: nat, c: nat)
    requires forall t :: 0 <= t < |params| ==> b < |params[t]|
    requires t < |params| && c < 3
    ensures CatRow(params, b)[3 * t + c] == Coords(params[t][b])[c]
  {
    if t > 0 {
      CatRowAt(params[1..], b, t - 1, c);
    }
  }

  /** `torch.cat(params, dim=1)`: one row of 3·|params| reals per batch element. */
  function Cat(params: Params, batchSize: nat): (r: seq<seq<real>>)
    requires forall t :: 0 <= t < |params| ==> |params[t]| == batchSize
    ensures |r| == batchSize
    ensures forall b :: 0 <= b < batchSize ==> |r[b]| == 3 * |params|
  {
    seq(batchSize, b requires 0 <= b < batchSize => CatRow(params, b))
  }
}
