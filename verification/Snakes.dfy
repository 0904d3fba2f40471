// Snakes, pellets and the mass helpers. Floats are reals; the square root is a
// parameter, so nothing depends on how it rounds.
module Snakes {
  import opened Geometry
  import opened Numbers
  import opened Options

  const STARTING_MASS: real := 10.0
  const SPINE_CAPACITY: nat := 420

  // Distance between recorded spine points.
  const SEGMENT_SPACING: real := 12.0

  datatype Food = Food(x: real, y: real, mass: real, expiresAtTick: Option<int>)

  // The spine is head first; `Spine` proves the ring buffer refines it.
  datatype Snake = Snake(id: EntityId, playerId: string, spine: seq<Point>, mass: real, radius: real,
                         score: int, alive: bool, kills: nat, angle: real, targetAngle: real, boosting: bool,
                         lastAckSeq: int, boostDebt: real, sinceLastPoint: real)

  datatype Command = Command(seqNo: int, angle: real, boost: bool)

  function RadiusForMass(mass: real, sqrt: real -> real): real {
    8.0 + sqrt(Max(0.0, mass)) * 1.6
  }

  function LengthForMass(mass: real): int {
    var n := (6.0 + Max(0.0, mass) * 0.9).Floor;
    if n < 400 then n else 400
  }

  function ScoreForMass(mass: real): int {
    var n := ((mass - STARTING_MASS) * 10.0).Floor;
    if n < 0 then 0 else n
  }

  // The ring is larger than any length, so its capacity never decides.
  lemma LengthBounds(mass: real)
    ensures mass >= 0.0 ==> 6 <= LengthForMass(mass) <= 400 < SPINE_CAPACITY
  {
  }

  lemma LengthMonotone(small: real, large: real)
    requires small <= large
    ensures LengthForMass(small) <= LengthForMass(large)
  {
    var a, b := 6.0 + Max(0.0, small) * 0.9, 6.0 + Max(0.0, large) * 0.9;
    assert a <= b;
    assert a.Floor <= b.Floor;
  }

  function SetMass(s: Snake, mass: real, sqrt: real -> real): Snake {
    var m := Max(1.0, mass);
    var grown := LengthForMass(m);
    var capacity := if grown < SPINE_CAPACITY then grown else SPINE_CAPACITY;
    s.(mass := m, radius := RadiusForMass(m, sqrt), score := ScoreForMass(m),
       spine := if 0 <= capacity < |s.spine| then s.spine[..capacity] else s.spine)
  }

  // Radius and score are functions of mass, and the body is as long as mass allows.
  ghost predicate Fit(s: Snake, sqrt: real -> real) {
    && s.mass >= 1.0 && s.radius == RadiusForMass(s.mass, sqrt) && s.score == ScoreForMass(s.mass)
    && 1 <= |s.spine| <= LengthForMass(s.mass)
  }

  // Whatever mass is set, the snake comes out fit; only a loss shortens it.
  lemma SetMassFits(s: Snake, mass: real, sqrt: real -> real)
    requires |s.spine| >= 1
    ensures Fit(SetMass(s, mass, sqrt), sqrt)
    ensures Fit(s, sqrt) && mass >= s.mass ==> SetMass(s, mass, sqrt).spine == s.spine
    ensures SetMass(s, mass, sqrt).spine <= s.spine
  {
    LengthBounds(Max(1.0, mass));
    if mass >= s.mass { LengthMonotone(s.mass, mass); }
  }

  function Head(s: Snake): Point
    requires |s.spine| >= 1
  {
    s.spine[0]
  }

  // `offset` 0 is the head; out-of-range offsets clamp.
  function PointAt(s: Snake, offset: int): Point
    requires |s.spine| >= 1
  {
    var floored := if offset < 0 then 0 else offset;
    s.spine[if floored < |s.spine| then floored else |s.spine| - 1]
  }

  // The world's snakes in the order their map iterates.
  ghost predicate Roster(order: seq<EntityId>, snakes: map<EntityId, Snake>) {
    && (forall i, j :: 0 <= i < j < |order| ==> order[i] != order[j])
    && (forall i :: 0 <= i < |order| ==> order[i] in snakes && Entered(snakes[order[i]], order[i]))
    && (forall id :: id in snakes ==> id in order)
  }

  predicate Entered(s: Snake, id: EntityId) {
    s.id == id && |s.spine| >= 1
  }
}
