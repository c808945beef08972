/** Facts of real arithmetic that the solver does not find inside larger proofs. */
module Reals {

  function Min(x: real, y: real): real {
    if y < x then y else x
  }

  function Max(x: real, y: real): real {
    if y > x then y else x
  }

  lemma QuotientBound(x: real, y: real)
    requires x >= 0.0 && y > 0.0
    ensures x / y >= 0.0
  {
  }

  lemma MulNonnegative(x: real, y: real)
    requires x >= 0.0 && y >= 0.0
    ensures x * y >= 0.0
  {
  }

  lemma MulPositive(x: real, y: real)
    requires x > 0.0 && y > 0.0
    ensures x * y > 0.0
  {
  }

  lemma Distribute(x: real, y: real, z: real)
    ensures (x + y) * z == x * z + y * z
    ensures (x - y) * z == x * z - y * z
  {
  }

  lemma Cancel(x: real, y: real, z: real)
    requires z > 0.0 && x * z <= y * z
    ensures x <= y
  {
    if x > y {
      MulPositive(x - y, z);
      Distribute(x, y, z);
    }
  }

  lemma QuotientLess(x: real, y: real)
    requires y > 0.0
    ensures (x - y) / y == x / y - 1.0
  {
    var q := (x - y) / y;
    assert q * y == x - y;
    assert (x / y) * y == x;
    Distribute(x / y, 1.0, y);
    Cancel(x / y - 1.0, q, y);
    Cancel(q, x / y - 1.0, y);
  }

  lemma {:induction false} QuotientUnder(x: real, y: real, m: real)
    requires y > 0.0
    ensures x / y < m <==> x < m * y
  {
    var q := x / y;
    assert q * y == x;
    if q < m {
      MulPositive(m - q, y);
      Distribute(m, q, y);
    } else {
      MulNonnegative(q - m, y);
      Distribute(q, m, y);
    }
  }

  lemma {:induction false} Reassociate(a: real, m: real, n: real)
    ensures (a * m) * n == a * (m * n) && (a * n) * m == a * (m * n)
  {
  }

  lemma {:induction false} ScaledCompare(a: real, b: real, k: real)
    requires k > 0.0
    ensures a > b <==> a * k > b * k
  {
    if a > b {
      MulPositive(a - b, k);
      Distribute(a, b, k);
    } else {
      MulNonnegative(b - a, k);
      Distribute(b, a, k);
    }
  }

  lemma {:induction false} QuotientsCompare(x: real, m: real, y: real, n: real)
    requires m > 0.0 && n > 0.0
    ensures x / m > y / n <==> x * n > y * m
  {
    var a, b := x / m, y / n;
    assert a * m == x;
    assert b * n == y;
    MulPositive(m, n);
    Reassociate(a, m, n);
    Reassociate(b, m, n);
    ScaledCompare(a, b, m * n);
  }
}
