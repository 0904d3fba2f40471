// Turning towards a heading the short way round.
module Steering {
  import opened Angles
  import opened Numbers

  function AngleDelta(from: real, to: real): real {
    var delta := Remainder(to - from, TURN);
    var lowered := if delta > PI then delta - TURN else delta;
    if lowered < -PI then lowered + TURN else lowered
  }

  // The turn a tick allows towards the requested heading.
  function Steered(angle: real, target: real, maxTurn: real): real {
    var delta := AngleDelta(angle, target);
    var capped := if delta < maxTurn then delta else maxTurn;
    angle + (if capped < -maxTurn then -maxTurn else capped)
  }

  // The difference leads to the target, up to whole turns.
  lemma DeltaLeads(from: real, to: real) returns (k: int)
    ensures to == from + AngleDelta(from, to) + TURN * k as real && -PI <= AngleDelta(from, to) <= PI
  {
    k := RemainderTurns(to - from);
    var r := Remainder(to - from, TURN);
    hide Remainder;
    if r > PI { k := k + 1; } else if r < -PI { k := k - 1; }
  }

  // No other way round is shorter.
  lemma DeltaShortest(from: real, to: real, k: int)
    ensures Abs(AngleDelta(from, to)) <= Abs(to - from + TURN * k as real)
  {
    var j := DeltaLeads(from, to);
    var d := AngleDelta(from, to);
    hide AngleDelta;
    assert to - from + TURN * k as real == d + TURN * (j + k) as real;
    if j + k > 0 { assert TURN * (j + k) as real >= TURN; }
    if j + k < 0 { assert TURN * (j + k) as real <= -TURN; }
  }

  // The documented range leaves out minus a half turn; the code can return it.
  lemma DocumentedRangeIff(from: real, to: real)
    ensures -PI < AngleDelta(from, to) <= PI <==> Remainder(to - from, TURN) != -PI
  {
    var k := RemainderTurns(to - from);
  }

  lemma MinusHalfTurnReached()
    ensures AngleDelta(PI, 0.0) == -PI
  {
    assert -PI / TURN == -0.5;
  }

  // A turn within the cap arrives; a longer one moves by the cap, never past it.
  lemma SteersWithinCap(angle: real, target: real, maxTurn: real) returns (k: int)
    requires maxTurn >= 0.0
    ensures Abs(Steered(angle, target, maxTurn) - angle) <= maxTurn
    ensures Abs(AngleDelta(angle, target)) <= maxTurn ==> Steered(angle, target, maxTurn) + TURN * k as real == target
    ensures Abs(AngleDelta(angle, target)) > maxTurn ==>
              (Abs(target - TURN * k as real - Steered(angle, target, maxTurn)) == Abs(AngleDelta(angle, target)) - maxTurn)
  {
    k := DeltaLeads(angle, target);
    hide AngleDelta;
  }
}
