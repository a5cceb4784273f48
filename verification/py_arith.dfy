/**
 Python's integer division operators and `int()` on a float, written out
 against Dafny's Euclidean `/` and `%`.
 */
module PyArith {
  import opened Outcome

  /** `a % b` in Python: the remainder takes the sign of b, and b == 0 raises. */
  function PyMod(a: int, b: int): (r: Result<int>)
    ensures r.Ok? <==> b != 0
    ensures r.Err? ==> r.error == ZeroDivisionError
    ensures b > 0 && r.Ok? ==> 0 <= r.value < b
    ensures b < 0 && r.Ok? ==> b < r.value <= 0
    ensures r.Ok? ==> exists q :: a == q * b + r.value
  {
    if b == 0 then Err(ZeroDivisionError)
    else
      var m := a % b;
      if b > 0 || m == 0 then
        assert a == (a / b) * b + m;
        Ok(m)
      else
        assert a == (a / b - 1) * b + (m + b);
        Ok(m + b)
  }

  /** A multiple of b leaves Python remainder zero. */
  lemma PyModOfMultiple(a: int, b: int, q: int)
    requires b != 0 && a == q * b
    ensures PyMod(a, b) == Ok(0)
  {
    assert a % b == 0 by {
      DivModUnique(a, b, q, 0);
    }
  }

  /** The quotient and remainder of Euclidean division are the only ones with the remainder in range. */
  lemma DivModUnique(a: int, b: int, q: int, r: int)
    requires b != 0 && 0 <= r < (if b > 0 then b else -b) && a == q * b + r
    ensures a / b == q && a % b == r
  {
    var q', r' := a / b, a % b;
    assert a == q' * b + r';
    assert (q - q') * b == r' - r;
    if q != q' {
      MulMagnitude(q - q', b);
    }
  }

  /** A nonzero multiple of b is at least |b| in size. */
  lemma MulMagnitude(x: int, b: int)
    requires x != 0 && b != 0
    ensures x * b >= (if b > 0 then b else -b) || x * b <= -(if b > 0 then b else -b)
  {
    if x > 0 && b > 0 {
      assert x * b == (x - 1) * b + b;
      assert (x - 1) * b >= 0;
    } else if x > 0 {
      assert x * b == (x - 1) * b + b;
      assert (x - 1) * b <= 0;
    } else if b > 0 {
      assert x * b == (x + 1) * b - b;
      assert (x + 1) * b <= 0;
    } else {
      assert x * b == (x + 1) * b - b;
      assert (x + 1) * b >= 0;
    }
  }

  /** `int(x)` for a float: truncation toward zero. */
  function Trunc(x: real): (i: int)
    ensures x >= 0.0 ==> i as real <= x < i as real + 1.0 && i >= 0
    ensures x < 0.0 ==> i as real - 1.0 < x <= i as real && i <= 0
  {
    if x >= 0.0 then x.Floor else -((-x).Floor)
  }
}
