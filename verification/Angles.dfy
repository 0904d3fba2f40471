// Whole turns and the remainder that keeps the sign of the dividend.
module Angles {
  const PI: real := 3.141592653589793115997963468544185161590576171875
  const TURN: real := 2.0 * PI

  function Trunc(x: real): int {
    if x >= 0.0 then x.Floor else -((-x).Floor)
  }

  // The remainder takes the sign of the dividend.
  function Remainder(a: real, m: real): real
    requires m > 0.0
  {
    a - m * Trunc(a / m) as real
  }

  lemma TruncPart(q: real)
    ensures -1.0 < q - Trunc(q) as real < 1.0 && (q >= 0.0 ==> q - Trunc(q) as real >= 0.0)
  {
  }

  lemma RemainderTurns(a: real) returns (k: int)
    ensures a == Remainder(a, TURN) + TURN * k as real && -TURN < Remainder(a, TURN) < TURN
    ensures a >= 0.0 ==> Remainder(a, TURN) >= 0.0
  {
    k := Trunc(a / TURN);
    TruncPart(a / TURN);
  }
}
