// How coordinates, angles and masses become integers and come back.
module Quantise {
  import opened Angles
  import opened Numbers

  const ANGLE_SCALE: real := 65535.0 / TURN
  const POSITION_SCALE: real := 4.0

  // Rounds half up.
  function Round(x: real): int { (x + 0.5).Floor }

  function MinInt(a: int, b: int): int { if a < b then a else b }

  function MaxInt(a: int, b: int): int { if a < b then b else a }

  function Normalise(a: real): real {
    Remainder(Remainder(a, TURN) + TURN, TURN)
  }

  function PackAngle(a: real): int { Round(Normalise(a) * ANGLE_SCALE) }

  function UnpackAngle(n: int): real { n as real / ANGLE_SCALE }

  function ClampI16(x: real): (n: int)
    ensures -32768 <= n < 32768
  {
    MaxInt(-32768, MinInt(32767, Round(x)))
  }

  function PackPosition(x: real, origin: real): int { ClampI16((x - origin) * POSITION_SCALE) }

  function UnpackPosition(n: int, origin: real): real { n as real / POSITION_SCALE + origin }

  function PackMass(m: real): int { MinInt(65535, Round(m)) }

  function PackRadius(r: real): int { MinInt(65535, Round(r * 4.0)) }

  function PackPellet(m: real): int { MinInt(255, Round(m)) }

  // ---- Angles --------------------------------------------------------------

  // Normalising keeps the heading: it moves by whole turns into [0, one turn).
  lemma NormaliseTurns(a: real) returns (k: int)
    ensures 0.0 <= Normalise(a) < TURN && a == Normalise(a) + TURN * k as real
  {
    var i := RemainderTurns(a);
    var j := RemainderTurns(Remainder(a, TURN) + TURN);
    k := i + j - 1;
  }

  lemma AngleFits(a: real)
    ensures 0 <= PackAngle(a) <= 65535
    ensures Abs(UnpackAngle(PackAngle(a)) - Normalise(a)) <= 0.5 / ANGLE_SCALE
  {
    var k := NormaliseTurns(a);
    hide Normalise;
    var x := Normalise(a) * ANGLE_SCALE;
    assert 0.0 <= x < 65535.0;
    assert Abs(Round(x) as real - x) <= 0.5;
  }

  lemma SmallAngle(a: real)
    requires 0.0 <= a <= TURN
    ensures Normalise(a) == if a == TURN then 0.0 else a
  {
    assert (TURN / TURN).Floor == 1;
    var r := Remainder(a, TURN);
    if a == TURN {
      assert r == 0.0;
    } else {
      assert 0.0 <= a / TURN < 1.0;
      assert r == a;
      assert 1.0 <= (a + TURN) / TURN < 2.0;
    }
  }

  // Packing what was unpacked changes nothing, except that the last step is a
  // full turn and packs as zero.
  lemma AngleStable(n: int)
    requires 0 <= n <= 65535
    ensures PackAngle(UnpackAngle(n)) == if n == 65535 then 0 else n
    ensures UnpackAngle(65535) == TURN
  {
    var a := UnpackAngle(n);
    assert 0.0 <= a <= TURN && (a == TURN <==> n == 65535);
    SmallAngle(a);
    assert a * ANGLE_SCALE == n as real;
  }

  // Some angles do pack into that last step.
  lemma LastStepReached()
    ensures PackAngle(65534.75 / ANGLE_SCALE) == 65535
  {
    var a := 65534.75 / ANGLE_SCALE;
    SmallAngle(a);
    assert a * ANGLE_SCALE == 65534.75;
  }

  // ---- Positions and masses ------------------------------------------------

  // A position comes back within an eighth exactly inside the window.
  lemma PositionCloseIff(x: real, origin: real)
    ensures Abs(UnpackPosition(PackPosition(x, origin), origin) - x) <= 0.125 <==> -8192.125 <= x - origin <= 8191.875
  {
    var d := (x - origin) * POSITION_SCALE;
    assert Abs(Round(d) as real - d) <= 0.5;
  }

  lemma PositionStable(n: int, origin: real)
    requires -32768 <= n < 32768
    ensures PackPosition(UnpackPosition(n, origin), origin) == n
  {
    assert (UnpackPosition(n, origin) - origin) * POSITION_SCALE == n as real;
  }

  lemma PelletClose(m: real)
    requires m >= 0.0
    ensures 0 <= PackPellet(m) <= 255 && (m <= 255.5 ==> Abs(PackPellet(m) as real - m) <= 0.5)
  {
  }

  lemma MassClose(m: real)
    requires m >= 0.0
    ensures 0 <= PackMass(m) <= 65535 && (m <= 65535.5 ==> Abs(PackMass(m) as real - m) <= 0.5)
    ensures 0 <= PackRadius(m) <= 65535 && (m <= 16383.875 ==> Abs(PackRadius(m) as real / 4.0 - m) <= 0.125)
  {
  }
}
