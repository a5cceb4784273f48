/**
 Sums, products and extrema of sequences of reals, and Python's slice
 semantics. These are the reductions that `torch.sum`, `torch.cumprod`,
 `ndarray.min`/`max` and `a[i:j]` perform in the source.
 */
module RealSeqs {

  /** Σ s, accumulated from the front. */
  function Sum(s: seq<real>): real
  {
    if |s| == 0 then 0.0 else s[0] + Sum(s[1..])
  }

  /** ∏ s, accumulated from the front; the empty product is 1. */
  function Prod(s: seq<real>): real
  {
    if |s| == 0 then 1.0 else s[0] * Prod(s[1..])
  }

  /** The sequence with `c` multiplied into every element. */
  function ScaleBy(c: real, s: seq<real>): (r: seq<real>)
    ensures |r| == |s|
    ensures forall i :: 0 <= i < |s| ==> r[i] == c * s[i]
  {
    seq(|s|, i requires 0 <= i < |s| => c * s[i])
  }

  lemma {:induction false} SumScale(c: real, s: seq<real>)
    ensures Sum(ScaleBy(c, s)) == c * Sum(s)
  {
    if |s| > 0 {
      assert forall i :: 0 <= i < |s| - 1 ==> ScaleBy(c, s)[1..][i] == ScaleBy(c, s[1..])[i];
      assert ScaleBy(c, s)[1..] == ScaleBy(c, s[1..]);
      SumScale(c, s[1..]);
      Distribute(c, s[0], Sum(s[1..]));
    }
  }

  lemma Distribute(c: real, a: real, b: real)
    ensures c * a + c * b == c * (a + b)
  {
  }

  lemma {:induction false} SumAppend(a: seq<real>, b: seq<real>)
    ensures Sum(a + b) == Sum(a) + Sum(b)
  {
    if |a| > 0 {
      assert (a + b)[1..] == a[1..] + b;
      SumAppend(a[1..], b);
    } else {
      assert a + b == b;
    }
  }

  lemma {:induction false} ProdAppend(a: seq<real>, b: seq<real>)
    ensures Prod(a + b) == Prod(a) * Prod(b)
  {
    if |a| > 0 {
      assert (a + b)[1..] == a[1..] + b;
      ProdAppend(a[1..], b);
    } else {
      assert a + b == b;
    }
  }

  /** Every element is nonnegative. */
  predicate AllNonneg(s: seq<real>)
  {
    forall i :: 0 <= i < |s| ==> 0.0 <= s[i]
  }

  /** Every element lies in the closed unit interval. */
  predicate AllUnit(s: seq<real>)
  {
    forall i :: 0 <= i < |s| ==> 0.0 <= s[i] <= 1.0
  }

  lemma {:induction false} SumNonneg(s: seq<real>)
    requires AllNonneg(s)
    ensures Sum(s) >= 0.0
  {
    if |s| > 0 {
      SumNonneg(s[1..]);
    }
  }

  lemma {:induction false} ProdUnit(s: seq<real>)
    requires AllUnit(s)
    ensures 0.0 <= Prod(s) <= 1.0
  {
    if |s| > 0 {
      ProdUnit(s[1..]);
      assert 0.0 <= s[0] * Prod(s[1..]) <= s[0];
    }
  }

  /** Σ_k a[k]·b[k]. */
  function Dot(a: seq<real>, b: seq<real>): real
    requires |a| == |b|
  {
    if |a| == 0 then 0.0 else a[0] * b[0] + Dot(a[1..], b[1..])
  }

  lemma {:induction false} DotSymmetric(a: seq<real>, b: seq<real>)
    requires |a| == |b|
    ensures Dot(a, b) == Dot(b, a)
  {
    if |a| > 0 {
      DotSymmetric(a[1..], b[1..]);
    }
  }

  lemma {:induction false} DotSelfNonneg(a: seq<real>)
    ensures Dot(a, a) >= 0.0
  {
    if |a| > 0 {
      DotSelfNonneg(a[1..]);
      assert a[0] * a[0] >= 0.0;
    }
  }

  /** The least element of a nonempty sequence (`ndarray.min`). */
  function Min(s: seq<real>): (m: real)
    requires |s| > 0
    ensures exists i :: 0 <= i < |s| && s[i] == m
    ensures forall i :: 0 <= i < |s| ==> m <= s[i]
  {
    if |s| == 1 then s[0]
    else
      var rest := Min(s[1..]);
      assert forall i :: 1 <= i < |s| ==> s[i] == s[1..][i - 1];
      if s[0] <= rest then s[0] else rest
  }

  /** The greatest element of a nonempty sequence (`ndarray.max`). */
  function Max(s: seq<real>): (m: real)
    requires |s| > 0
    ensures exists i :: 0 <= i < |s| && s[i] == m
    ensures forall i :: 0 <= i < |s| ==> s[i] <= m
  {
    if |s| == 1 then s[0]
    else
      var rest := Max(s[1..]);
      assert forall i :: 1 <= i < |s| ==> s[i] == s[1..][i - 1];
      if rest <= s[0] then s[0] else rest
  }

  function Abs(x: real): real
  {
    if x < 0.0 then -x else x
  }

  /** Every row has `width` entries: the rows form a |m| x width matrix. */
  predicate HasWidth(m: seq<seq<real>>, width: nat)
  {
    forall i :: 0 <= i < |m| ==> |m[i]| == width
  }

  /** Column j of a matrix (`m[:, j]`). */
  function Column(m: seq<seq<real>>, j: nat): (c: seq<real>)
    requires forall i :: 0 <= i < |m| ==> j < |m[i]|
    ensures |c| == |m|
    ensures forall i :: 0 <= i < |m| ==> c[i] == m[i][j]
  {
    seq(|m|, i requires 0 <= i < |m| => m[i][j])
  }

  /** Python's `max(a, b)` on reals. */
  function Max2(a: real, b: real): (m: real)
    ensures m >= a && m >= b && (m == a || m == b)
  {
    if a >= b then a else b
  }

  /** `torch.clamp(x, lo, hi)`: `min(max(x, lo), hi)`, so `hi` wins when `lo > hi`. */
  function Clamp(x: real, lo: real, hi: real): (r: real)
    ensures lo <= hi ==> lo <= r <= hi
    ensures lo <= x <= hi ==> r == x
  {
    var up := if x < lo then lo else x;
    if up > hi then hi else up
  }

  /**
   The index Python uses for a slice bound `i` on a sequence of length `n`:
   negative bounds count from the end, and the result is clipped to [0, n].
   */
  function SliceBound(i: int, n: nat): (k: nat)
    ensures k <= n
    ensures 0 <= i <= n ==> k == i
    ensures i > n ==> k == n
    ensures -(n as int) <= i < 0 ==> k == n + i
    ensures i < -(n as int) ==> k == 0
  {
    if i < 0 then (if n + i < 0 then 0 else n + i)
    else if i > n then n
    else i
  }

  /** Python's `s[i:j]` for a step of 1: empty when the start lies past the end. */
  function PySlice<T>(s: seq<T>, i: int, j: int): (r: seq<T>)
    ensures 0 <= i <= j <= |s| ==> r == s[i..j]
    ensures forall x :: x in r ==> x in s
  {
    var a := SliceBound(i, |s|);
    var b := SliceBound(j, |s|);
    if a <= b then
      assert forall k :: 0 <= k < b - a ==> s[a..b][k] == s[a + k];
      s[a..b]
    else []
  }
}
