/** The two roundings of the batch arithmetic. */
module Ceilings {
  /** Floor division, for a divisor of either sign. */
  function FloorDiv(a: int, b: int): int
    requires b != 0
  {
    if b > 0 then a / b else (-a) / (-b)
  }

  function CeilDiv(a: int, b: int): int
    requires b != 0
  {
    -FloorDiv(a, -b)
  }

  function RoundUpDivisible(a: int, b: int): int
    requires b != 0
  {
    FloorDiv(a + b - 1, b) * b
  }

  lemma Negated(q: int, b: int)
    ensures (-q) * b == -(q * b) && (q - 1) * b == q * b - b && (-q - 1) * b == -(q * b) - b
  {
  }

  lemma TimesMonotone(x: int, y: int, b: int)
    requires x <= y && b >= 0
    ensures x * b <= y * b
  {
  }

  /** `CeilDiv` is the least count of b's that reaches a. */
  lemma CeilDivLeast(a: int, b: int, c: int)
    requires b > 0
    ensures CeilDiv(a, b) * b >= a
    ensures c * b >= a ==> c >= CeilDiv(a, b)
  {
    var q := (-a) / b;
    assert -a == q * b + (-a) % b;
    assert CeilDiv(a, b) == -q;
    Negated(q, b);
    if c * b >= a && c < -q {
      TimesMonotone(c, -q - 1, b);
    }
  }

  /** `RoundUpDivisible` is the least multiple of b that reaches a. */
  lemma RoundUpLeast(a: int, b: int, c: int)
    requires b > 0
    ensures RoundUpDivisible(a, b) >= a
    ensures c * b >= a ==> c * b >= RoundUpDivisible(a, b)
  {
    var q := (a + b - 1) / b;
    assert a + b - 1 == q * b + (a + b - 1) % b;
    Negated(q, b);
    if c <= q - 1 {
      TimesMonotone(c, q - 1, b);
    } else {
      TimesMonotone(q, c, b);
    }
  }
}
