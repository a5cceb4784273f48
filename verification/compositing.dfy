/**
 Ray compositing along the x axis of a NeRF density grid
 (`preprocess_to_alpha`, `preprocess_to_weight` and its inner `compute_weight`
 in Train_NeRF_Grasp_Metric.py).

 α_j is the probability that a ray hits something inside segment j, given that
 it reached the segment. The compositing weight w_j = α_j · ∏_{i<j}(1 − α_i) is
 the probability that the FIRST hit lies in segment j.
 */
module Compositing {
  import opened RealSeqs

  /** The grid spacing `DELTA` (1 mm) used to turn density into alpha. */
  const Delta: real := 0.001

  /** Elementwise 1 − α. */
  function OneMinus(alpha: seq<real>): (t: seq<real>)
    ensures |t| == |alpha|
    ensures forall i :: 0 <= i < |alpha| ==> t[i] == 1.0 - alpha[i]
  {
    seq(|alpha|, i requires 0 <= i < |alpha| => 1.0 - alpha[i])
  }

  lemma OneMinusTail(alpha: seq<real>)
    requires |alpha| > 0
    ensures OneMinus(alpha)[1..] == OneMinus(alpha[1..])
  {
    assert forall i :: 0 <= i < |alpha| - 1 ==> OneMinus(alpha)[1..][i] == OneMinus(alpha[1..])[i];
  }

  /**
   The running product `acc · t_0 · … · t_i` for every i: `torch.cumprod`
   started from `acc`.
   */
  function CumProdFrom(t: seq<real>, acc: real): (c: seq<real>)
    ensures |c| == |t|
    ensures forall i :: 0 <= i < |t| ==> c[i] == acc * Prod(t[..i + 1])
    decreases |t|
  {
    if |t| == 0 then []
    else
      var rest := CumProdFrom(t[1..], acc * t[0]);
      assert forall i :: 1 <= i < |t| ==> t[..i + 1][1..] == t[1..][..i];
      [acc * t[0]] + rest
  }

  /** `t.cumprod(dim=x)`: entry i is t_0 · … · t_i. */
  function CumProd(t: seq<real>): (c: seq<real>)
    ensures |c| == |t|
    ensures forall i :: 0 <= i < |t| ==> c[i] == Prod(t[..i + 1])
  {
    CumProdFrom(t, 1.0)
  }

  /**
   `cumprod_1_minus_alpha_from_left_shifted`: a one prepended to the cumulative
   product of 1 − α, whose last entry is dropped. Entry j is the probability
   that the ray passes the first j segments untouched.
   */
  function Transmittance(alpha: seq<real>): (s: seq<real>)
    ensures |s| == |alpha|
    ensures |alpha| > 0 ==> s[0] == 1.0
  {
    if |alpha| == 0 then []
    else [1.0] + CumProd(OneMinus(alpha))[..|alpha| - 1]
  }

  /** Entry j of the transmittance is the product of 1 − α over the first j segments. */
  lemma TransmittanceAt(alpha: seq<real>, j: nat)
    requires j < |alpha|
    ensures Transmittance(alpha)[j] == Prod(OneMinus(alpha)[..j])
  {
    if j > 0 {
      assert OneMinus(alpha)[..j] == OneMinus(alpha)[..(j - 1) + 1];
    }
  }

  /**
   `compute_weight`: the first-hit probability of every segment of one ray,
   w_j = α_j · ∏_{i<j}(1 − α_i).
   */
  function ComputeWeight(alpha: seq<real>): (w: seq<real>)
    ensures |w| == |alpha|
  {
    var s := Transmittance(alpha);
    seq(|alpha|, j requires 0 <= j < |alpha| => alpha[j] * s[j])
  }

  /** Entry j of the weights is α_j times the transmittance up to segment j. */
  lemma WeightAt(alpha: seq<real>, j: nat)
    requires j < |alpha|
    ensures ComputeWeight(alpha)[j] == alpha[j] * Prod(OneMinus(alpha)[..j])
  {
    TransmittanceAt(alpha, j);
    SameProduct(alpha[j], Transmittance(alpha)[j], Prod(OneMinus(alpha)[..j]));
  }

  lemma SameProduct(a: real, x: real, y: real)
    requires x == y
    ensures a * x == a * y
  {
  }

  /**
   A reference definition of the first-hit probability of segment j, peeling
   the ray segment by segment: the first segment is hit with probability α_0,
   and a later one only if the ray passed the first.
   */
  function Hit(alpha: seq<real>, j: nat): real
    requires j < |alpha|
    decreases j
  {
    if j == 0 then alpha[0] else (1.0 - alpha[0]) * Hit(alpha[1..], j - 1)
  }

  /** The first-hit probabilities of every segment of a ray. */
  function FirstHit(alpha: seq<real>): (w: seq<real>)
    ensures |w| == |alpha|
    ensures forall j :: 0 <= j < |alpha| ==> w[j] == Hit(alpha, j)
  {
    seq(|alpha|, j requires 0 <= j < |alpha| => Hit(alpha, j))
  }

  lemma ProdHeadPrefix(t: seq<real>, j: nat)
    requires j < |t|
    ensures Prod(t[..j + 1]) == t[0] * Prod(t[1..][..j])
  {
    assert t[..j + 1][1..] == t[1..][..j];
  }

  lemma TransmittanceStep(alpha: seq<real>, j: nat)
    requires j + 1 < |alpha|
    ensures Prod(OneMinus(alpha)[..j + 1]) == (1.0 - alpha[0]) * Prod(OneMinus(alpha[1..])[..j])
  {
    ProdHeadPrefix(OneMinus(alpha), j);
    OneMinusTail(alpha);
  }

  lemma Rescale(x: real, y: real, c: real, a: real, p: real, q: real)
    requires x == c * y && y == a * p && q == c * p
    ensures x == a * q
  {
  }

  lemma HitStep(alpha: seq<real>, j: nat)
    requires 0 < j < |alpha|
    requires Hit(alpha[1..], j - 1) == alpha[j] * Prod(OneMinus(alpha[1..])[..j - 1])
    ensures Hit(alpha, j) == alpha[j] * Prod(OneMinus(alpha)[..j])
  {
    TransmittanceStep(alpha, j - 1);
    Rescale(Hit(alpha, j), Hit(alpha[1..], j - 1), 1.0 - alpha[0], alpha[j],
            Prod(OneMinus(alpha[1..])[..j - 1]), Prod(OneMinus(alpha)[..j]));
  }

  lemma {:induction false} HitClosedForm(alpha: seq<real>, j: nat)
    requires j < |alpha|
    ensures Hit(alpha, j) == alpha[j] * Prod(OneMinus(alpha)[..j])
  {
    if j > 0 {
      HitClosedForm(alpha[1..], j - 1);
      HitStep(alpha, j);
    } else {
      assert OneMinus(alpha)[..0] == [];
    }
  }

  /** The cumulative-product computation agrees with the segment-by-segment reference. */
  lemma ComputeWeightIsFirstHit(alpha: seq<real>)
    ensures ComputeWeight(alpha) == FirstHit(alpha)
  {
    forall j | 0 <= j < |alpha|
      ensures ComputeWeight(alpha)[j] == FirstHit(alpha)[j]
    {
      WeightAt(alpha, j);
      HitClosedForm(alpha, j);
    }
  }

  /** With every α in [0, 1], every weight is a probability. */
  lemma WeightsAreProbabilities(alpha: seq<real>)
    requires AllUnit(alpha)
    ensures AllUnit(ComputeWeight(alpha))
  {
    var w := ComputeWeight(alpha);
    forall j | 0 <= j < |alpha|
      ensures 0.0 <= w[j] <= 1.0
    {
      var p := OneMinus(alpha)[..j];
      assert AllUnit(p);
      ProdUnit(p);
      WeightAt(alpha, j);
      UnitProduct(alpha[j], Prod(p));
    }
  }

  lemma UnitProduct(a: real, p: real)
    requires 0.0 <= a <= 1.0 && 0.0 <= p <= 1.0
    ensures 0.0 <= a * p <= a
  {
  }

  /** Peeling the first segment scales the remaining first-hit probabilities by 1 − α_0. */
  lemma FirstHitTail(alpha: seq<real>)
    requires |alpha| > 0
    ensures FirstHit(alpha)[1..] == ScaleBy(1.0 - alpha[0], FirstHit(alpha[1..]))
  {
    var rest := FirstHit(alpha[1..]);
    forall k | 0 <= k < |rest|
      ensures FirstHit(alpha)[1..][k] == ScaleBy(1.0 - alpha[0], rest)[k]
    {
      assert Hit(alpha, k + 1) == (1.0 - alpha[0]) * Hit(alpha[1..], k);
    }
  }

  lemma Telescope(a: real, s: real, s': real, p: real, p': real)
    requires s == a + (1.0 - a) * s' && s' == 1.0 - p' && p == (1.0 - a) * p'
    ensures s == 1.0 - p
  {
  }

  lemma FirstHitSumHead(alpha: seq<real>)
    requires |alpha| > 0
    ensures Sum(FirstHit(alpha)) == alpha[0] + (1.0 - alpha[0]) * Sum(FirstHit(alpha[1..]))
  {
    FirstHitTail(alpha);
    SumScale(1.0 - alpha[0], FirstHit(alpha[1..]));
  }

  lemma ProdOneMinusHead(alpha: seq<real>)
    requires |alpha| > 0
    ensures Prod(OneMinus(alpha)) == (1.0 - alpha[0]) * Prod(OneMinus(alpha[1..]))
  {
    OneMinusTail(alpha);
  }

  lemma FirstHitSumStep(alpha: seq<real>)
    requires |alpha| > 0
    requires Sum(FirstHit(alpha[1..])) == 1.0 - Prod(OneMinus(alpha[1..]))
    ensures Sum(FirstHit(alpha)) == 1.0 - Prod(OneMinus(alpha))
  {
    FirstHitSumHead(alpha);
    ProdOneMinusHead(alpha);
    Telescope(alpha[0], Sum(FirstHit(alpha)), Sum(FirstHit(alpha[1..])),
              Prod(OneMinus(alpha)), Prod(OneMinus(alpha[1..])));
  }

  lemma {:induction false} FirstHitSum(alpha: seq<real>)
    ensures Sum(FirstHit(alpha)) == 1.0 - Prod(OneMinus(alpha))
  {
    if |alpha| > 0 {
      FirstHitSum(alpha[1..]);
      FirstHitSumStep(alpha);
    }
  }

  /**
   The weights telescope: their sum is the probability of hitting anything,
   1 − ∏_i(1 − α_i).
   */
  lemma WeightsSum(alpha: seq<real>)
    ensures Sum(ComputeWeight(alpha)) == 1.0 - Prod(OneMinus(alpha))
  {
    ComputeWeightIsFirstHit(alpha);
    FirstHitSum(alpha);
  }

  /** With every α in [0, 1], the weights of a ray sum to at most one. */
  lemma WeightsSumAtMostOne(alpha: seq<real>)
    requires AllUnit(alpha)
    ensures 0.0 <= Sum(ComputeWeight(alpha)) <= 1.0
  {
    WeightsSum(alpha);
    assert AllUnit(OneMinus(alpha));
    ProdUnit(OneMinus(alpha));
  }
}
