/** Integer division as the source's language does it, and the few facts about it the loops and the
    clock rest on. */
module Arithmetic {

  /** Integer division rounding toward zero, as the source's `/` does. */
  function TruncDiv(a: int, b: int): int
    requires b > 0
  {
    if a >= 0 then a / b else -((-a) / b)
  }

  lemma Distribute(p: int, a: int, b: int)
    ensures p * (a + b) == p * a + p * b
  {
  }

  lemma Monotone(a: int, b: int, g: nat)
    requires a <= b
    ensures a * g <= b * g
  {
    Distribute(g, a, b - a);
    assert a + (b - a) == b;
    assert (b - a) * g >= 0;
  }

  /** The quotient brackets its dividend. */
  lemma DivBrackets(x: int, b: int)
    requires b > 0
    ensures (x / b) * b <= x < (x / b) * b + b
  {
    assert x == (x / b) * b + x % b;
  }

  lemma DivIs(x: int, b: int, q: int)
    requires b > 0
    ensures x / b == q <==> q * b <= x < q * b + b
  {
    var d := x / b;
    DivBrackets(x, b);
    Distribute(b, d, 1);
    Distribute(b, q, 1);
    if d < q {
      Monotone(d + 1, q, b);
    } else if d > q {
      Monotone(q + 1, d, b);
    }
  }

  lemma DivAtMost(a: nat, b: int)
    requires b > 0
    ensures 0 <= a / b <= a && (a + b) / b == a / b + 1
  {
    var q := a / b;
    DivBrackets(a, b);
    DivIs(a + b, b, q + 1);
    Distribute(b, q, 1);
    QuotientIsNatural(a, b);
    Monotone(1, b, q);
  }

  lemma QuotientIsNatural(a: nat, b: int)
    requires b > 0
    ensures a / b >= 0
  {
  }
}
