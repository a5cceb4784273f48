/**
 Depth and depth-uncertainty rendering of a camera's rays
 (nerf_grasping/nerf_utils.py): the rays are rendered in chunks of a fixed
 size, and each chunk turns its per-sample weights into a clipped expected
 depth and a depth variance.
 The proposal sampler, the density field and `get_weights` are not part of
 this model: each ray arrives as the sample intervals and weights they
 produce. The median depth renderer is a function parameter.
 */
module DepthRender {
  import opened Outcome
  import opened RealSeqs
  import opened PyArith
  import Rigid

  /** The two depth modes. */
  const MedianMode := "median"
  const ExpectedMode := "expected"

  // Messages of the exceptions raised below.
  const EmptyMinMessage := "min of empty tensor"
  const InvalidModeMessage := "Invalid depth mode"
  const ZeroStepMessage := "range() arg 3 must not be zero"
  const EmptyCatMessage := "expected a non-empty list of Tensors"

  /** The samples along one ray: interval starts and ends, and the rendering weight of each. */
  datatype RaySamples = RaySamples(starts: seq<real>, ends: seq<real>, weights: seq<real>)
  {
    /** Equal lengths, and weights as `get_weights` produces them (never negative). */
    predicate WellFormed()
    {
      |starts| == |weights| && |ends| == |weights| && AllNonneg(weights)
    }
  }

  /** The constant keeping the weight normalisation away from zero. */
  const Eps: real := 0.0000001

  /** `(starts + ends) / 2`. */
  function Midpoints(r: RaySamples): (m: seq<real>)
    requires r.WellFormed()
    ensures |m| == |r.weights|
    ensures forall k :: 0 <= k < |m| ==> r.starts[k] <= m[k] <= r.ends[k] || r.ends[k] <= m[k] <= r.starts[k]
  {
    seq(|r.weights|, k requires 0 <= k < |r.weights| => (r.starts[k] + r.ends[k]) / 2.0)
  }

  /** `weights / (weights.sum() + EPS)`. */
  function Normalized(w: seq<real>): (n: seq<real>)
    requires AllNonneg(w)
    ensures |n| == |w|
  {
    SumNonneg(w);
    seq(|w|, k requires 0 <= k < |w| => w[k] / (Sum(w) + Eps))
  }

  lemma NormalizedAt(w: seq<real>, k: nat)
    requires AllNonneg(w) && k < |w|
    ensures Sum(w) + Eps > 0.0
    ensures Normalized(w)[k] == w[k] / (Sum(w) + Eps)
  {
    SumNonneg(w);
  }

  /**
   The normalised weights are nonnegative and sum to strictly less than
   one, so the expected depth of a ray is a sub-convex combination of its
   sample depths.
   */
  lemma NormalizedSumBelowOne(w: seq<real>)
    requires AllNonneg(w)
    ensures AllNonneg(Normalized(w))
    ensures 0.0 <= Sum(Normalized(w)) < 1.0
  {
    SumNonneg(w);
    var d := Sum(w) + Eps;
    NormalizedIsScaled(w, d);
    SumScale(1.0 / d, w);
    FractionBelowOne(Sum(w), Eps);
  }

  /** Normalising divides every weight by the same positive total. */
  lemma NormalizedIsScaled(w: seq<real>, d: real)
    requires AllNonneg(w) && d == Sum(w) + Eps
    ensures d > 0.0
    ensures Normalized(w) == ScaleBy(1.0 / d, w)
    ensures AllNonneg(Normalized(w))
  {
    SumNonneg(w);
    var n := Normalized(w);
    var scaled := ScaleBy(1.0 / d, w);
    forall k | 0 <= k < |w| ensures n[k] == scaled[k] && n[k] >= 0.0 {
      NormalizedAt(w, k);
      DivideAsScale(w[k], d);
      DivideNonneg(w[k], d);
    }
  }

  lemma DivideAsScale(x: real, d: real)
    requires d > 0.0
    ensures x / d == (1.0 / d) * x
  {
  }

  lemma DivideNonneg(x: real, d: real)
    requires x >= 0.0 && d > 0.0
    ensures x / d >= 0.0
  {
  }

  lemma FractionBelowOne(s: real, e: real)
    requires s >= 0.0 && e > 0.0
    ensures 0.0 <= (1.0 / (s + e)) * s < 1.0
  {
    assert (1.0 / (s + e)) * s == s / (s + e);
  }

  /** The expected depth of a ray, clipped into the given depth range. */
  function ExpectedDepth(r: RaySamples, lo: real, hi: real): (e: real)
    requires r.WellFormed()
    ensures lo <= hi ==> lo <= e <= hi
  {
    Clamp(Dot(Normalized(r.weights), Midpoints(r)), lo, hi)
  }

  /** `(normalized_weights * (steps - expected) ** 2).sum()`. */
  function DepthVariance(r: RaySamples, lo: real, hi: real): real
    requires r.WellFormed()
  {
    var e := ExpectedDepth(r, lo, hi);
    var m := Midpoints(r);
    Dot(Normalized(r.weights), seq(|m|, k requires 0 <= k < |m| => (m[k] - e) * (m[k] - e)))
  }

  /** The variance is a weighted sum of squares with nonnegative weights, so never negative. */
  lemma DepthVarianceNonneg(r: RaySamples, lo: real, hi: real)
    requires r.WellFormed()
    ensures DepthVariance(r, lo, hi) >= 0.0
  {
    var e := ExpectedDepth(r, lo, hi);
    var m := Midpoints(r);
    var sq := seq(|m|, k requires 0 <= k < |m| => (m[k] - e) * (m[k] - e));
    NormalizedSumBelowOne(r.weights);
    forall k | 0 <= k < |sq| ensures sq[k] >= 0.0 {
      Square(m[k] - e);
    }
    DotNonneg(Normalized(r.weights), sq);
  }

  lemma Square(v: real)
    ensures v * v >= 0.0
  {
  }

  lemma {:induction false} DotNonneg(a: seq<real>, b: seq<real>)
    requires |a| == |b| && AllNonneg(a) && AllNonneg(b)
    ensures Dot(a, b) >= 0.0
  {
    if |a| > 0 {
      DotNonneg(a[1..], b[1..]);
      ProductNonneg(a[0], b[0]);
    }
  }

  lemma ProductNonneg(x: real, y: real)
    requires x >= 0.0 && y >= 0.0
    ensures x * y >= 0.0
  {
  }

  /**
   A ray whose weights are all zero normalises to all zeros, so its
   unclipped expected depth is 0 and the clip lifts it to the lower bound
   of a range that starts at or above 0; its variance is 0.
   */
  lemma ZeroWeightsGiveMin(r: RaySamples, lo: real, hi: real)
    requires r.WellFormed() && forall k :: 0 <= k < |r.weights| ==> r.weights[k] == 0.0
    requires 0.0 <= lo <= hi
    ensures ExpectedDepth(r, lo, hi) == lo
    ensures DepthVariance(r, lo, hi) == 0.0
  {
    var n := Normalized(r.weights);
    forall k | 0 <= k < |n| ensures n[k] == 0.0 {
      NormalizedAt(r.weights, k);
    }
    Rigid.DotZeros(n, Midpoints(r));
    var e := ExpectedDepth(r, lo, hi);
    var m := Midpoints(r);
    Rigid.DotZeros(n, seq(|m|, k requires 0 <= k < |m| => (m[k] - e) * (m[k] - e)));
  }

  // ---------------------------------------------------------------------
  // One chunk

  predicate AllWellFormed(rays: seq<RaySamples>)
  {
    forall k :: 0 <= k < |rays| ==> rays[k].WellFormed()
  }

  /** Every sample midpoint of the chunk, ray after ray. */
  function BundleSteps(rays: seq<RaySamples>): (s: seq<real>)
    requires AllWellFormed(rays)
  {
    if |rays| == 0 then [] else
      assert AllWellFormed(rays[1..]) by {
        forall k | 0 <= k < |rays| - 1 ensures rays[1..][k].WellFormed() {
          assert rays[1..][k] == rays[k + 1];
        }
      }
      Midpoints(rays[0]) + BundleSteps(rays[1..])
  }

  /** Every midpoint of every ray of the chunk is among the chunk's steps. */
  lemma {:induction false} StepOfRayInBundle(rays: seq<RaySamples>, i: nat, k: nat)
    requires AllWellFormed(rays)
    requires i < |rays| && k < |rays[i].weights|
    ensures Midpoints(rays[i])[k] in BundleSteps(rays)
  {
    if i > 0 {
      assert AllWellFormed(rays[1..]) by {
        forall j | 0 <= j < |rays| - 1 ensures rays[1..][j].WellFormed() {
          assert rays[1..][j] == rays[j + 1];
        }
      }
      assert rays[1..][i - 1] == rays[i];
      StepOfRayInBundle(rays[1..], i - 1, k);
    } else {
      assert BundleSteps(rays)[k] == Midpoints(rays[0])[k];
    }
  }

  /** `steps.min()` and `steps.max()` need at least one sample in the chunk. */
  predicate HasSamples(rays: seq<RaySamples>)
    requires AllWellFormed(rays)
  {
    |BundleSteps(rays)| > 0
  }

  /** The depth range the chunk's expected depths are clipped into: its least and greatest step. */
  function Bounds(rays: seq<RaySamples>): (b: (real, real))
    requires AllWellFormed(rays)
    requires HasSamples(rays)
    ensures b.0 <= b.1
  {
    var s := BundleSteps(rays);
    (Min(s), Max(s))
  }

  /** Every sample depth of every ray of the chunk lies in the chunk's depth range. */
  lemma BoundsContainSteps(rays: seq<RaySamples>, i: nat, k: nat)
    requires AllWellFormed(rays) && HasSamples(rays)
    requires i < |rays| && k < |rays[i].weights|
    ensures Bounds(rays).0 <= Midpoints(rays[i])[k] <= Bounds(rays).1
  {
    StepOfRayInBundle(rays, i, k);
  }

  predicate ValidMode(mode: string)
  {
    mode == MedianMode || mode == ExpectedMode
  }

  /** The depth reported for one ray: the median renderer's, or the clipped expected depth. */
  function RayDepth(r: RaySamples, b: (real, real), mode: string, median: RaySamples -> real): real
    requires r.WellFormed() && ValidMode(mode)
  {
    if mode == MedianMode then median(r) else ExpectedDepth(r, b.0, b.1)
  }

  /**
   `_render_depth_and_uncertainty_for_single_ray_bundle`: the variance and
   expected depth are computed for every ray before the mode is looked
   at; a chunk without samples fails in `steps.min()`, and a mode other
   than "median" or "expected" is a ValueError.
   */
  function RenderBundle(rays: seq<RaySamples>, mode: string, median: RaySamples -> real)
    : (r: Result<(seq<real>, seq<real>)>)
    requires AllWellFormed(rays)
    ensures r.Ok? <==> HasSamples(rays) && ValidMode(mode)
    ensures !HasSamples(rays) ==> r.Err? && r.error.RuntimeError?
    ensures HasSamples(rays) && !ValidMode(mode) ==> r.Err? && r.error.ValueError?
    ensures r.Ok? ==> |r.value.0| == |rays| && |r.value.1| == |rays|
    ensures r.Ok? ==> forall k :: 0 <= k < |rays| ==>
                        r.value.0[k] == RayDepth(rays[k], Bounds(rays), mode, median)
                        && r.value.1[k] == DepthVariance(rays[k], Bounds(rays).0, Bounds(rays).1)
  {
    if !HasSamples(rays) then Err(RuntimeError(EmptyMinMessage))
    else
      var b := Bounds(rays);
      var variance := seq(|rays|, k requires 0 <= k < |rays| => DepthVariance(rays[k], b.0, b.1));
      if mode == MedianMode then Ok((seq(|rays|, k requires 0 <= k < |rays| => median(rays[k])), variance))
      else if mode == ExpectedMode then Ok((seq(|rays|, k requires 0 <= k < |rays| => ExpectedDepth(rays[k], b.0, b.1)), variance))
      else Err(ValueError(InvalidModeMessage))
  }

  /**
   In "expected" mode every depth of a rendered chunk lies between the
   chunk's least and greatest sample depth, and every variance is
   nonnegative.
   */
  lemma RenderBundleBounded(rays: seq<RaySamples>, median: RaySamples -> real, k: nat)
    requires AllWellFormed(rays)
    requires HasSamples(rays) && k < |rays|
    ensures var out := RenderBundle(rays, ExpectedMode, median).value;
            && Min(BundleSteps(rays)) <= out.0[k] <= Max(BundleSteps(rays))
            && out.1[k] >= 0.0
  {
    var b := Bounds(rays);
    DepthVarianceNonneg(rays[k], b.0, b.1);
  }

  // ---------------------------------------------------------------------
  // The chunk loop

  /** `get_row_major_sliced_ray_bundle(start, start + size)`: the slice stops at the last ray. */
  function Chunk(rays: seq<RaySamples>, start: nat, size: nat): (c: seq<RaySamples>)
    requires start <= |rays|
    ensures |c| <= size && start + |c| <= |rays| && c == rays[start..start + |c|]
    ensures AllWellFormed(rays) ==> AllWellFormed(c)
    ensures start + size <= |rays| ==> |c| == size
    ensures start + size > |rays| ==> start + |c| == |rays|
  {
    rays[start..if start + size <= |rays| then start + size else |rays|]
  }

  /** The chunk ray j falls into: the one starting at the multiple of the chunk size at or below j. */
  function ChunkOf(rays: seq<RaySamples>, size: nat, j: nat): (c: seq<RaySamples>)
    requires size > 0 && j < |rays|
    ensures AllWellFormed(rays) ==> AllWellFormed(c)
  {
    Chunk(rays, (j / size) * size, size)
  }

  /**
   Ray j is reported with depth dj and variance vj: its chunk has samples,
   the mode is a valid one, and both values are those of the ray clipped to
   its own chunk's depth range.
   */
  predicate RenderedAt(rays: seq<RaySamples>, size: nat, mode: string, median: RaySamples -> real,
                       j: nat, dj: real, vj: real)
    requires AllWellFormed(rays) && size > 0 && j < |rays|
  {
    var c := ChunkOf(rays, size, j);
    && HasSamples(c)
    && ValidMode(mode)
    && dj == RayDepth(rays[j], Bounds(c), mode, median)
    && vj == DepthVariance(rays[j], Bounds(c).0, Bounds(c).1)
  }

  /** The first |depth| rays have been rendered. */
  ghost predicate Rendered(rays: seq<RaySamples>, size: nat, mode: string, median: RaySamples -> real,
                           depth: seq<real>, variance: seq<real>)
    requires AllWellFormed(rays) && size > 0
  {
    && |depth| == |variance| <= |rays|
    && forall j :: 0 <= j < |depth| ==> RenderedAt(rays, size, mode, median, j, depth[j], variance[j])
  }

  /** Appending the outputs of the next chunk extends the rendered prefix by that chunk. */
  lemma ExtendRendered(rays: seq<RaySamples>, size: nat, mode: string, median: RaySamples -> real,
                       depth: seq<real>, variance: seq<real>, count: nat, out: (seq<real>, seq<real>))
    requires AllWellFormed(rays) && size > 0
    requires Rendered(rays, size, mode, median, depth, variance)
    requires |depth| == count * size < |rays|
    requires RenderBundle(Chunk(rays, count * size, size), mode, median) == Ok(out)
    ensures Rendered(rays, size, mode, median, depth + out.0, variance + out.1)
  {
    var i := count * size;
    var chunk := Chunk(rays, i, size);
    var d, v := depth + out.0, variance + out.1;
    assert |out.0| == |out.1| == |chunk| && i + |chunk| <= |rays|;
    forall j | i <= j < |d| ensures RenderedAt(rays, size, mode, median, j, d[j], v[j]) {
      ChunkOfRay(rays, size, count, j);
      RenderedFromChunk(rays, size, mode, median, j, chunk, out, j - i);
    }
  }

  /** Ray j lies in the chunk starting at count·size, at offset j - count·size. */
  lemma ChunkOfRay(rays: seq<RaySamples>, size: nat, count: nat, j: nat)
    requires size > 0 && count * size <= j < |rays| && j < count * size + size
    ensures ChunkOf(rays, size, j) == Chunk(rays, count * size, size)
    ensures j - count * size < |Chunk(rays, count * size, size)|
    ensures rays[j] == Chunk(rays, count * size, size)[j - count * size]
  {
    ChunkIndex(count, size, j);
  }

  /** Ray j, at offset k of its own chunk, gets output k of that chunk. */
  lemma RenderedFromChunk(rays: seq<RaySamples>, size: nat, mode: string, median: RaySamples -> real,
                          j: nat, chunk: seq<RaySamples>, out: (seq<real>, seq<real>), k: nat)
    requires AllWellFormed(rays) && size > 0 && j < |rays|
    requires chunk == ChunkOf(rays, size, j) && k < |chunk| && rays[j] == chunk[k]
    requires RenderBundle(chunk, mode, median) == Ok(out)
    ensures RenderedAt(rays, size, mode, median, j, out.0[k], out.1[k])
  {
  }

  /** A chunk that fails to render is the chunk of its first ray. */
  lemma FailedChunk(rays: seq<RaySamples>, size: nat, mode: string, median: RaySamples -> real, count: nat)
    requires AllWellFormed(rays) && size > 0 && count * size < |rays|
    requires RenderBundle(Chunk(rays, count * size, size), mode, median).Err?
    ensures !(HasSamples(ChunkOf(rays, size, count * size)) && ValidMode(mode))
  {
    ChunkIndex(count, size, count * size);
  }

  /**
   `_render_depth_and_uncertainty_for_camera_ray_bundle`: `range(0,
   num_rays, size)` visits the chunk starts 0, size, 2·size, … below the
   number of rays, each chunk is rendered on its own, and the outputs are
   concatenated. A zero chunk size is rejected by `range`; a negative one,
   or no rays at all, leaves nothing to concatenate, which `torch.cat`
   rejects. Each ray ends up with the depth and variance its own chunk
   gives it, clipped to that chunk's depth range.
   */
  method RenderCamera(rays: seq<RaySamples>, size: int, mode: string, median: RaySamples -> real)
    returns (r: Result<(seq<real>, seq<real>)>)
    requires AllWellFormed(rays)
    ensures size == 0 ==> r.Err? && r.error.ValueError?
    ensures size != 0 && (size < 0 || |rays| == 0) ==> r.Err? && r.error.RuntimeError?
    ensures r.Ok? <==> size > 0 && |rays| > 0 && ValidMode(mode)
                        && forall j :: 0 <= j < |rays| ==> HasSamples(ChunkOf(rays, size, j))
    ensures r.Ok? ==> |r.value.0| == |rays| && |r.value.1| == |rays|
    ensures r.Ok? ==> forall j :: 0 <= j < |rays| ==> RenderedAt(rays, size, mode, median, j, r.value.0[j], r.value.1[j])
  {
    if size == 0 {
      return Err(ValueError(ZeroStepMessage));
    }
    if size < 0 || |rays| == 0 {
      return Err(RuntimeError(EmptyCatMessage));
    }
    var n := |rays|;
    var depth: seq<real> := [];
    var variance: seq<real> := [];
    var i: nat := 0;
    ghost var count: nat := 0;
    while i < n
      invariant i == count * size
      invariant i < n ==> |depth| == i
      invariant i >= n ==> |depth| == n
      invariant i > 0 ==> ValidMode(mode)
      invariant Rendered(rays, size, mode, median, depth, variance)
      decreases n - i
    {
      var out := RenderBundle(Chunk(rays, i, size), mode, median);
      if out.Err? {
        FailedChunk(rays, size, mode, median, count);
        return Err(out.error);
      }
      ExtendRendered(rays, size, mode, median, depth, variance, count, out.value);
      depth := depth + out.value.0;
      variance := variance + out.value.1;
      i := i + size;
      count := count + 1;
    }
    forall j | 0 <= j < n ensures HasSamples(ChunkOf(rays, size, j)) {
      assert RenderedAt(rays, size, mode, median, j, depth[j], variance[j]);
    }
    r := Ok((depth, variance));
  }

  /** A position j in the chunk that starts at count·size lies in chunk number count. */
  lemma ChunkIndex(count: nat, size: nat, j: nat)
    requires size > 0 && count * size <= j < count * size + size
    ensures j / size == count && (j / size) * size == count * size
  {
    DivModUnique(j, size, count, j - count * size);
  }
}
