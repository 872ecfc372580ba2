/** Facts about real products, stated with the products named so that the solver can use them linearly. */
module RealAlgebra {
  lemma Positive(x: real, y: real, p: real)
    requires p == x * y && ((x > 0.0 && y > 0.0) || (x < 0.0 && y < 0.0))
    ensures p > 0.0
  {
  }

  lemma NonNegative(x: real, y: real, p: real)
    requires p == x * y && x >= 0.0 && y >= 0.0
    ensures p >= 0.0
  {
    if x > 0.0 && y > 0.0 {
      Positive(x, y, p);
    }
  }

  lemma Square(x: real, p: real)
    requires p == x * x
    ensures p >= 0.0 && (x != 0.0 ==> p > 0.0)
  {
    if x != 0.0 {
      Positive(x, x, p);
    }
  }

  /** Equal squares leave a number or its negative. */
  lemma SameSquare(x: real, y: real, p: real)
    requires x * x == p && y * y == p
    ensures x == y || x == -y
  {
    var u, v := x - y, x + y;
    assert u * v == 0.0;
    if u != 0.0 {
      Square(u, u * u);
      assert u * u * v == 0.0;
      assert v == u * u * v / (u * u);
    }
  }

  lemma NoLength(x: real, y: real, p: real, q: real)
    requires p == x * x && q == y * y && p + q <= 0.0
    ensures x == 0.0 && y == 0.0
  {
    Square(x, p);
    Square(y, q);
  }

  lemma Cancel(m: real, a: real, p: real, b: real)
    requires m > 0.0 && p == m * a && p < m * b
    ensures a < b
  {
  }

  lemma CancelAtMost(m: real, a: real, b: real, p: real, q: real)
    requires m > 0.0 && p == m * a && q == m * b && p <= q
    ensures a <= b
  {
    if a > b {
      Positive(m, a - b, p - q);
    }
  }

  lemma SameFactor(m: real, x: real, y: real, p: real)
    requires m > 0.0 && p == m * x && p == m * y
    ensures x == y
  {
    CancelAtMost(m, x, y, p, p);
    CancelAtMost(m, y, x, p, p);
  }

  lemma Compare(m: real, x: real, y: real, p: real)
    requires m > 0.0 && p == m * x
    ensures x <= y ==> p <= m * y
    ensures y < x ==> m * y < p
  {
    if x <= y {
      NonNegative(m, y - x, m * (y - x));
    } else {
      Positive(m, x - y, m * (x - y));
    }
  }

  lemma Whole(x: real)
    requires x != 0.0
    ensures x / x == 1.0
  {
    var q := x / x;
    assert q * x == x;
    if x > 0.0 {
      SameFactor(x, q, 1.0, x);
    } else {
      SameFactor(-x, q, 1.0, -x);
    }
  }
}
