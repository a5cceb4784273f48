/**
 Small dense matrices and 4×4 homogeneous transforms: `a @ b`, a rotation
 block and a translation column written into `np.eye(4)`, and the rule
 for composing two such transforms.
 */
module Rigid {
  import opened RealSeqs

  predicate IsMatrix(m: seq<seq<real>>, rows: nat, cols: nat)
  {
    |m| == rows && HasWidth(m, cols)
  }

  /** `a @ b`: entry (i, j) is row i of a against column j of b. */
  function MatMul(a: seq<seq<real>>, b: seq<seq<real>>, n: nat, k: nat, m: nat): (c: seq<seq<real>>)
    requires IsMatrix(a, n, k) && IsMatrix(b, k, m)
    ensures IsMatrix(c, n, m)
  {
    seq(n, i requires 0 <= i < n => seq(m, j requires 0 <= j < m => Dot(a[i], Column(b, j))))
  }

  /** `a @ v` for a vector v. */
  function MatVec(a: seq<seq<real>>, v: seq<real>): (w: seq<real>)
    requires HasWidth(a, |v|)
    ensures |w| == |a|
  {
    seq(|a|, i requires 0 <= i < |a| => Dot(a[i], v))
  }

  function Add(u: seq<real>, v: seq<real>): (w: seq<real>)
    requires |u| == |v|
    ensures |w| == |u|
  {
    seq(|u|, i requires 0 <= i < |u| => u[i] + v[i])
  }

  /**
   `T = np.eye(4); T[:3, :3] = R; T[:3, 3] = t`: the rotation block, the
   translation column, and the bottom row of the identity.
   */
  function Homogeneous(R: seq<seq<real>>, t: seq<real>): (h: seq<seq<real>>)
    requires IsMatrix(R, 3, 3) && |t| == 3
    ensures IsMatrix(h, 4, 4)
    ensures forall i, j :: 0 <= i < 3 && 0 <= j < 3 ==> h[i][j] == R[i][j]
    ensures forall i :: 0 <= i < 3 ==> h[i][3] == t[i]
    ensures h[3] == [0.0, 0.0, 0.0, 1.0]
  {
    [R[0] + [t[0]], R[1] + [t[1]], R[2] + [t[2]], [0.0, 0.0, 0.0, 1.0]]
  }

  /** The rotation block of a homogeneous transform. */
  function RotationOf(h: seq<seq<real>>): (R: seq<seq<real>>)
    requires IsMatrix(h, 4, 4)
    ensures IsMatrix(R, 3, 3)
  {
    [h[0][..3], h[1][..3], h[2][..3]]
  }

  /** The translation column of a homogeneous transform. */
  function TranslationOf(h: seq<seq<real>>): (t: seq<real>)
    requires IsMatrix(h, 4, 4)
    ensures |t| == 3
  {
    [h[0][3], h[1][3], h[2][3]]
  }

  /** Taking a transform apart and putting it back together changes nothing, as long as its bottom row is the identity's. */
  lemma HomogeneousParts(h: seq<seq<real>>)
    requires IsMatrix(h, 4, 4) && h[3] == [0.0, 0.0, 0.0, 1.0]
    ensures Homogeneous(RotationOf(h), TranslationOf(h)) == h
  {
    var g := Homogeneous(RotationOf(h), TranslationOf(h));
    forall i | 0 <= i < 3 ensures g[i] == h[i] {
      assert h[i] == h[i][..3] + [h[i][3]];
    }
  }

  /** Reading the parts back out of a homogeneous transform gives the rotation and translation put in. */
  lemma PartsOfHomogeneous(R: seq<seq<real>>, t: seq<real>)
    requires IsMatrix(R, 3, 3) && |t| == 3
    ensures RotationOf(Homogeneous(R, t)) == R
    ensures TranslationOf(Homogeneous(R, t)) == t
  {
    var h := Homogeneous(R, t);
    assert h[0][..3] == R[0] && h[1][..3] == R[1] && h[2][..3] == R[2];
  }

  lemma {:induction false} DotSnoc(a: seq<real>, x: real, b: seq<real>, y: real)
    requires |a| == |b|
    ensures Dot(a + [x], b + [y]) == Dot(a, b) + x * y
  {
    if |a| == 0 {
      assert Dot([x], [y]) == x * y + Dot([], []);
    } else {
      assert (a + [x])[1..] == a[1..] + [x] && (b + [y])[1..] == b[1..] + [y];
      DotSnoc(a[1..], x, b[1..], y);
    }
  }

  lemma {:induction false} DotZeros(z: seq<real>, b: seq<real>)
    requires |z| == |b| && forall k :: 0 <= k < |z| ==> z[k] == 0.0
    ensures Dot(z, b) == 0.0
  {
    if |z| > 0 {
      DotZeros(z[1..], b[1..]);
    }
  }

  lemma ColumnOfHomogeneous(R: seq<seq<real>>, t: seq<real>, j: nat)
    requires IsMatrix(R, 3, 3) && |t| == 3 && j < 4
    ensures Column(Homogeneous(R, t), j) == if j < 3 then Column(R, j) + [0.0] else t + [1.0]
  {
  }

  /**
   Composing two homogeneous transforms rotates by the product of the
   rotations and translates by the first rotation applied to the second
   translation plus the first translation; the bottom row stays that of
   the identity.
   */
  lemma ComposeHomogeneous(R1: seq<seq<real>>, t1: seq<real>, R2: seq<seq<real>>, t2: seq<real>)
    requires IsMatrix(R1, 3, 3) && |t1| == 3 && IsMatrix(R2, 3, 3) && |t2| == 3
    ensures MatMul(Homogeneous(R1, t1), Homogeneous(R2, t2), 4, 4, 4)
            == Homogeneous(MatMul(R1, R2, 3, 3, 3), Add(MatVec(R1, t2), t1))
  {
    var h1, h2 := Homogeneous(R1, t1), Homogeneous(R2, t2);
    var lhs := MatMul(h1, h2, 4, 4, 4);
    var rhs := Homogeneous(MatMul(R1, R2, 3, 3, 3), Add(MatVec(R1, t2), t1));
    forall i, j | 0 <= i < 4 && 0 <= j < 4 ensures lhs[i][j] == rhs[i][j] {
      ColumnOfHomogeneous(R2, t2, j);
      if i < 3 {
        assert h1[i] == R1[i] + [t1[i]];
        if j < 3 {
          DotSnoc(R1[i], t1[i], Column(R2, j), 0.0);
        } else {
          DotSnoc(R1[i], t1[i], t2, 1.0);
        }
      } else {
        assert h1[3] == [0.0, 0.0, 0.0] + [1.0];
        var c := Column(h2, j);
        assert c == c[..3] + [c[3]];
        DotSnoc([0.0, 0.0, 0.0], 1.0, c[..3], c[3]);
        DotZeros([0.0, 0.0, 0.0], c[..3]);
      }
    }
    forall i | 0 <= i < 4 ensures lhs[i] == rhs[i] {
      assert |lhs[i]| == |rhs[i]| == 4;
    }
  }
}
