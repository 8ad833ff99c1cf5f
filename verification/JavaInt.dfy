/** Java's 32-bit `int`: two's-complement wrap-around, and division that truncates toward zero. */
module JavaInt {

  const MAX_INT: int := 0x7fff_ffff
  const MIN_INT: int := -0x8000_0000

  predicate InRange(x: int) {
    MIN_INT <= x <= MAX_INT
  }

  /** The `int` that Java stores when the mathematical result of an operation is x. */
  function Wrap(x: int): (r: int)
    ensures InRange(r)
    ensures InRange(x) ==> r == x
  {
    (x - MIN_INT) % 0x1_0000_0000 + MIN_INT
  }

  /** It is the one 32-bit number that is congruent to x modulo 2^32. */
  lemma WrapIs(x: int)
    ensures -2147483648 <= Wrap(x) <= 2147483647
    ensures (Wrap(x) - x) % 4294967296 == 0
  {
    var q := (x - MIN_INT) / 0x1_0000_0000;
    assert Wrap(x) - x == -q * 0x1_0000_0000;
  }

  /** Wrapping after every addition is wrapping once. */
  lemma WrapAdds(x: int, y: int)
    ensures Wrap(Wrap(x) + y) == Wrap(x + y)
  {}

  /** Java's `a / b`. */
  function Div(a: int, b: int): int
    requires b != 0
  {
    if a >= 0 then a / b else -((-a) / b)
  }

  /** Java's `a % b`. */
  function Rem(a: int, b: int): int
    requires b != 0
  {
    a - Div(a, b) * b
  }

  /** For a positive divisor, quotient and remainder rebuild a, and both lean toward zero. */
  lemma DivRem(a: int, b: int)
    requires b > 0
    ensures a == Div(a, b) * b + Rem(a, b)
    ensures a >= 0 ==> 0 <= Rem(a, b) < b && 0 <= Div(a, b) <= a
    ensures a <= 0 ==> -b < Rem(a, b) <= 0 && a <= Div(a, b) <= 0
  {
    var m := if a >= 0 then a else -a;
    assert m == m / b * b + m % b;
    DivAtMost(m, b);
  }

  lemma DivAtMost(m: nat, b: int)
    requires b > 0
    ensures 0 <= m / b <= m
  {
    var q := m / b;
    assert m == q * b + m % b;
    Multiples(b, q);
  }

  /** Integer division has only one quotient. */
  lemma SameQuotient(q: int, a: int, b: int, x: int)
    requires q > 0 && q * a <= x < q * a + q && q * b <= x < q * b + q
    ensures a == b
  {
    assert q * (a + 1) == q * a + q && q * (b + 1) == q * b + q;
    if a < b {
      Ordered(q, a + 1, b);
    } else if b < a {
      Ordered(q, b + 1, a);
    }
  }

  /** Multiples of a positive d, ordered by their factor. */
  lemma Multiples(d: int, x: int)
    requires d > 0
    ensures x >= 0 ==> d * x >= x
    ensures x >= 1 ==> d * x >= d
    ensures x >= 2 ==> d * x >= 2 * d
    ensures x <= 1 ==> d * x <= d
    ensures x <= 0 ==> d * x <= x
    ensures x <= -1 ==> d * x <= -d
  {
    if x >= 2 {
      Ordered(d, 2, x);
    } else {
      Ordered(d, x, 1);
      if x <= -1 {
        Ordered(d, x, -1);
      }
    }
    if x >= 0 {
      assert d * x == x + (d - 1) * x;
      Ordered(x, 0, d - 1);
    } else {
      assert d * x == x + (d - 1) * x;
      Ordered(-x, 0, d - 1);
      assert (d - 1) * x == -((-x) * (d - 1));
    }
  }

  lemma Ordered(d: int, x: int, y: int)
    requires d >= 0 && x <= y
    ensures d * x <= d * y
  {
    assert d * y == d * x + d * (y - x);
    ProductNonNegative(d, y - x);
  }

  lemma ProductNonNegative(x: int, y: int)
    requires x >= 0 && y >= 0
    ensures x * y >= 0
  {}
}
