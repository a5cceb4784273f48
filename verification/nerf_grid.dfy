/**
 The NeRF density grid of one grasp and the index transforms that
 `preprocess_nerf_grid_inputs` (Train_NeRF_Grasp_Metric.py) applies to it:
 the split into a left and a right half, the flip of the right half, and the
 random left/right swap.

 A batch tensor of shape (B, 4, X, Y, Z) is a sequence of B examples; an
 example is a sequence of 4 channels; a channel is an X × Y × Z grid indexed
 `g[x][y][z]`. Channels 0..2 hold the xyz coordinates of each grid point and
 channel 3 its density.
 */
module NerfGrid {
  import opened RealSeqs

  const NumPtsX: nat := 83
  const NumPtsY: nat := 21
  const NumPtsZ: nat := 37
  const NumXyz: nat := 3
  const NumChannels: nat := 4
  /** Channel `NERF_DENSITY_START_IDX`; the coordinates are channels 0..2. */
  const DensityChannel: nat := 3
  /** `NUM_PTS_X // 2`: the x extent of each half. */
  const NumPtsPerSide: nat := NumPtsX / 2

  type Grid = seq<seq<seq<real>>>
  type Example = seq<Grid>

  /** `g` is a dense nx × ny × nz grid. */
  predicate IsGrid(g: Grid, nx: nat, ny: nat, nz: nat)
  {
    |g| == nx &&
    forall i :: 0 <= i < nx ==> |g[i]| == ny && forall j :: 0 <= j < ny ==> |g[i][j]| == nz
  }

  /** One example of a tensor of shape (B, 4, nx, 21, 37). */
  predicate IsExample(e: Example, nx: nat)
  {
    |e| == NumChannels && forall c :: 0 <= c < |e| ==> IsGrid(e[c], nx, NumPtsY, NumPtsZ)
  }

  /** A whole batch tensor of shape (B, 4, nx, 21, 37). */
  predicate IsBatch(batch: seq<Example>, nx: nat)
  {
    forall b :: 0 <= b < |batch| ==> IsExample(batch[b], nx)
  }

  function Reverse<T>(s: seq<T>): (r: seq<T>)
    ensures |r| == |s|
    ensures forall i :: 0 <= i < |s| ==> r[i] == s[|s| - 1 - i]
  {
    seq(|s|, i requires 0 <= i < |s| => s[|s| - 1 - i])
  }

  lemma ReverseReverse<T>(s: seq<T>)
    ensures Reverse(Reverse(s)) == s
  {
  }

  /** `g.flip(dims=(x, y))`: both the x and the y order are reversed. */
  function FlipXY(g: Grid): (r: Grid)
    ensures |r| == |g|
    ensures forall i :: 0 <= i < |g| ==> r[i] == Reverse(g[|g| - 1 - i])
  {
    seq(|g|, i requires 0 <= i < |g| => Reverse(g[|g| - 1 - i]))
  }

  /** `inputs[:, :, :41]`: the first 41 x-slices of every channel. */
  function LeftHalf(e: Example): (l: Example)
    ensures |l| == |e|
    ensures IsExample(e, NumPtsX) ==> IsExample(l, NumPtsPerSide)
  {
    assert IsExample(e, NumPtsX) ==> forall c :: 0 <= c < |e| ==> PySlice(e[c], 0, NumPtsPerSide) == e[c][..41];
    seq(|e|, c requires 0 <= c < |e| => PySlice(e[c], 0, NumPtsPerSide))
  }

  /** `inputs[:, :, -41:].flip(dims=(x, y))`: the last 41 x-slices, turned around z. */
  function RightHalf(e: Example): (r: Example)
    ensures |r| == |e|
    ensures IsExample(e, NumPtsX) ==> IsExample(r, NumPtsPerSide)
  {
    assert IsExample(e, NumPtsX) ==> forall c :: 0 <= c < |e| ==> PySlice(e[c], -(NumPtsPerSide as int), |e[c]|) == e[c][42..];
    seq(|e|, c requires 0 <= c < |e| => FlipXY(PySlice(e[c], -(NumPtsPerSide as int), |e[c]|)))
  }

  /** The left half holds grid point (i, j, k) of the input unchanged. */
  lemma LeftHalfAt(e: Example, c: nat, i: nat, j: nat, k: nat)
    requires IsExample(e, NumPtsX)
    requires c < NumChannels && i < NumPtsPerSide && j < NumPtsY && k < NumPtsZ
    ensures LeftHalf(e)[c][i][j][k] == e[c][i][j][k]
  {
    assert PySlice(e[c], 0, NumPtsPerSide) == e[c][..41];
  }

  /** The right half holds input point (82 − i, 20 − j, k) at (i, j, k). */
  lemma RightHalfAt(e: Example, c: nat, i: nat, j: nat, k: nat)
    requires IsExample(e, NumPtsX)
    requires c < NumChannels && i < NumPtsPerSide && j < NumPtsY && k < NumPtsZ
    ensures RightHalf(e)[c][i][j][k] == e[c][82 - i][20 - j][k]
  {
    assert PySlice(e[c], -(NumPtsPerSide as int), |e[c]|) == e[c][42..];
  }

  /**
   The middle x-slice 41 belongs to neither half: two examples that differ
   only there have the same halves.
   */
  lemma HalvesIgnoreMiddleSlice(e: Example, e': Example)
    requires IsExample(e, NumPtsX) && IsExample(e', NumPtsX)
    requires forall c, i :: 0 <= c < NumChannels && 0 <= i < NumPtsX && i != NumPtsPerSide ==> e[c][i] == e'[c][i]
    ensures LeftHalf(e) == LeftHalf(e')
    ensures RightHalf(e) == RightHalf(e')
  {
    forall c | 0 <= c < NumChannels
      ensures LeftHalf(e)[c] == LeftHalf(e')[c]
      ensures RightHalf(e)[c] == RightHalf(e')[c]
    {
      assert PySlice(e[c], 0, NumPtsPerSide) == e[c][..41];
      assert PySlice(e'[c], 0, NumPtsPerSide) == e'[c][..41];
      assert e[c][..41] == e'[c][..41];
      assert PySlice(e[c], -(NumPtsPerSide as int), |e[c]|) == e[c][42..];
      assert PySlice(e'[c], -(NumPtsPerSide as int), |e'[c]|) == e'[c][42..];
      assert e[c][42..] == e'[c][42..];
    }
  }

  /**
   `torch.where(mask, b, a), torch.where(mask, a, b)` on a batch: the two
   sequences trade places exactly at the masked batch positions.
   */
  function SwapWhere<T>(mask: seq<bool>, a: seq<T>, b: seq<T>): (r: (seq<T>, seq<T>))
    requires |mask| == |a| == |b|
    ensures |r.0| == |a| && |r.1| == |a|
  {
    (seq(|a|, i requires 0 <= i < |a| => if mask[i] then b[i] else a[i]),
     seq(|a|, i requires 0 <= i < |a| => if mask[i] then a[i] else b[i]))
  }

  /** Where the mask is set the halves are exchanged; elsewhere nothing changes. */
  lemma SwapWhereAt<T>(mask: seq<bool>, a: seq<T>, b: seq<T>, i: nat)
    requires |mask| == |a| == |b| && i < |a|
    ensures mask[i] ==> SwapWhere(mask, a, b).0[i] == b[i] && SwapWhere(mask, a, b).1[i] == a[i]
    ensures !mask[i] ==> SwapWhere(mask, a, b).0[i] == a[i] && SwapWhere(mask, a, b).1[i] == b[i]
  {
  }

  /** Swapping twice under the same mask restores both sequences. */
  lemma SwapWhereInvolution<T>(mask: seq<bool>, a: seq<T>, b: seq<T>)
    requires |mask| == |a| == |b|
    ensures var (a', b') := SwapWhere(mask, a, b); SwapWhere(mask, a', b') == (a, b)
  {
    var (a', b') := SwapWhere(mask, a, b);
    assert SwapWhere(mask, a', b').0 == a;
    assert SwapWhere(mask, a', b').1 == b;
  }

  /** Swapping never loses an element: the pair at every position is kept, possibly reordered. */
  lemma SwapWherePreservesPairs<T>(mask: seq<bool>, a: seq<T>, b: seq<T>)
    requires |mask| == |a| == |b|
    ensures forall i :: 0 <= i < |a| ==>
      multiset{SwapWhere(mask, a, b).0[i], SwapWhere(mask, a, b).1[i]} == multiset{a[i], b[i]}
  {
  }
}
