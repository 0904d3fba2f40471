// How far the sweep through the grid agrees with the rule that looks at every body point.
module SweepReach {
  import opened Collisions
  import opened Feeding
  import opened Geometry
  import opened Numbers
  import opened Snakes
  import SpatialHash

  // What the grid brings up is really there: looking at fewer points kills no one else.
  lemma SeenKillsAreReal(view: View, snakes: map<EntityId, Snake>, victim: EntityId, killer: EntityId, living: set<EntityId>)
    requires victim in snakes && |snakes[victim].spine| >= 1 && living <= snakes.Keys
    requires Killer(view, snakes, victim, killer, living)
    ensures Killer(All, snakes, victim, killer, living)
  {
    var s, other := snakes[victim], snakes[killer];
    var offset :| Touches(s, other, offset) && Seen(view, s, other.spine[offset]);
    assert Seen(All, s, other.spine[offset]);
  }

  // ---- Within the margin ---------------------------------------------------

  ghost predicate Slim(snakes: map<EntityId, Snake>) {
    forall id :: id in snakes && snakes[id].alive ==> snakes[id].radius <= MARGIN
  }

  lemma SlimIsSeen(s: Snake, other: Snake, offset: int, cellSize: CellSize)
    requires |s.spine| >= 1 && Touches(s, other, offset) && other.radius <= MARGIN
    ensures BroughtUp(s, cellSize, other.spine[offset])
  {
    hide SpatialHash.CellOf, SpatialHash.CellKey, Within;
    var p, reach := other.spine[offset], s.radius + MARGIN;
    SpatialHash.ReachedIsVisited(p, Head(s), s.radius + other.radius, reach, cellSize);
    assert Queried(s, cellSize, SpatialHash.CellOf(p.x, cellSize), SpatialHash.CellOf(p.y, cellSize));
  }

  lemma SlimKillersSame(snakes: map<EntityId, Snake>, victim: EntityId, killer: EntityId, living: set<EntityId>, cellSize: CellSize)
    requires victim in snakes && |snakes[victim].spine| >= 1 && living <= snakes.Keys
    requires Slim(snakes) && forall id :: id in living ==> snakes[id].alive
    ensures Killer(Grid(cellSize), snakes, victim, killer, living) <==> Killer(All, snakes, victim, killer, living)
  {
    if Killer(Grid(cellSize), snakes, victim, killer, living) {
      SeenKillsAreReal(Grid(cellSize), snakes, victim, killer, living);
    }
    if Killer(All, snakes, victim, killer, living) {
      var s, other := snakes[victim], snakes[killer];
      var offset :| Touches(s, other, offset) && Seen(All, s, other.spine[offset]);
      SlimIsSeen(s, other, offset, cellSize);
      assert Seen(Grid(cellSize), s, other.spine[offset]);
    }
  }

  lemma {:induction false} AliveBefore(view: View, order: seq<EntityId>, snakes: map<EntityId, Snake>, radius: real, n: nat)
    requires Roster(order, snakes) && n <= |order|
    ensures forall id :: id in Living(view, order, snakes, radius, n) ==> id in snakes && snakes[id].alive
  {
    LivingShrinks(view, order, snakes, radius, 0, n);
  }

  // With no living snake wider than the margin, both sweeps kill the same
  // snakes and accept the same deaths.
  lemma {:induction false} SlimSweepsSame(order: seq<EntityId>, snakes: map<EntityId, Snake>, radius: real, cellSize: CellSize,
                                          n: nat, deaths: seq<Death>)
    requires Roster(order, snakes) && n <= |order| && Slim(snakes)
    ensures Living(Grid(cellSize), order, snakes, radius, n) == Living(All, order, snakes, radius, n)
    ensures Judged(Grid(cellSize), order, snakes, radius, n, deaths) <==> Judged(All, order, snakes, radius, n, deaths)
    decreases n
  {
    if n > 0 {
      var id, living := order[n - 1], Living(All, order, snakes, radius, n - 1);
      SlimSweepsSame(order, snakes, radius, cellSize, n - 1, deaths);
      if deaths != [] { SlimSweepsSame(order, snakes, radius, cellSize, n - 1, deaths[..|deaths| - 1]); }
      AliveBefore(All, order, snakes, radius, n - 1);
      hide Slim, Contact, HitsWall;
      forall k { SlimKillersSame(snakes, id, k, living, cellSize); }
      hide Killer;
      assert Dies(Grid(cellSize), snakes, id, living, radius) == Dies(All, snakes, id, living, radius);
    }
  }

  // The queried margin covers every contact exactly when the other radius is within it.
  lemma MarginServesIff(mine: real, theirs: real, cellSize: real)
    requires cellSize > 0.0 && mine >= 0.0 && theirs >= 0.0
    ensures var reach, queried := mine + theirs, mine + MARGIN;
            (forall p: Point, q: Point :: Within(p, q, reach) ==> SpatialHash.Visited(p, q, queried, cellSize)) <==>
              theirs <= MARGIN
  {
    hide Within, SpatialHash.Visited;
    SpatialHash.QueryServesIff(mine + theirs, mine + MARGIN, cellSize);
  }

  // ---- Past the margin -----------------------------------------------------

  // Whatever the cell size, a wider snake can touch a head from cells that the
  // query never visits.
  lemma WideSnakeMissed(s: Snake, other: Snake, cellSize: real) returns (victim: Snake, wide: Snake)
    requires cellSize > 0.0 && s.radius >= 0.0 && other.radius > MARGIN
    ensures victim.radius == s.radius && wide.radius == other.radius && |victim.spine| >= 1 && Contact(All, victim, wide)
    ensures forall offset :: Touches(victim, wide, offset) ==>
              !SpatialHash.Visited(wide.spine[offset], Head(victim), victim.radius + MARGIN, cellSize)
  {
    hide Within, SpatialHash.Visited;
    var p, q := SpatialHash.MissesBeyond(s.radius + other.radius, s.radius + MARGIN, cellSize);
    victim, wide := s.(spine := [q]), other.(spine := [p, p, p, p, p]);
    assert Touches(victim, wide, 4) && Seen(All, victim, wide.spine[4]);
  }

  // A snake outgrows the margin exactly when its mass passes 400.
  lemma WidthIffMass(s: Snake, sqrt: real -> real)
    requires IsRoot(sqrt) && Fit(s, sqrt)
    ensures s.radius <= MARGIN <==> s.mass <= 400.0
  {
    var r := sqrt(s.mass);
    if r <= 20.0 { if r < 20.0 { SquaresGrow(r, 20.0); } } else { SquaresGrow(20.0, r); }
  }

  // Two snakes: a fresh one facing away, and a heavy one across its nose at the
  // nearest cell that the query leaves out.
  function Fresh(x: real, sqrt: real -> real): Snake {
    var spine := seq(15, i => Point(x - SEGMENT_SPACING * i as real, 0.0));
    Snake(1, "fresh", spine, STARTING_MASS, RadiusForMass(STARTING_MASS, sqrt), 0, true, 0, 0.0, 0.0, false, 0, 0.0, 0.0)
  }

  function Heavy(mass: real, sqrt: real -> real): Snake {
    var spine := seq(15, i => Point(0.0, SEGMENT_SPACING * (i - NECK) as real));
    Snake(2, "heavy", spine, mass, RadiusForMass(mass, sqrt), ScoreForMass(mass), true, 0, 0.0, 0.0, false, 0, 0.0, 0.0)
  }

  lemma HeavyWorldFits(x: real, mass: real, sqrt: real -> real)
    requires mass > 400.0
    ensures var snakes := map[1 := Fresh(x, sqrt), 2 := Heavy(mass, sqrt)]; Roster([1, 2], snakes) && AllFit(snakes, sqrt)
  {
    LengthMonotone(STARTING_MASS, mass);
    assert LengthForMass(STARTING_MASS) == 15;
    var snakes := map[1 := Fresh(x, sqrt), 2 := Heavy(mass, sqrt)];
    assert forall id :: id in snakes ==> id == 1 || id == 2;
    assert forall i :: 0 <= i < 2 ==> [1, 2][i] == i + 1;
  }

  lemma CellBounds(v: real, cellSize: real, b: int)
    requires cellSize >= 1.0 && b >= 0 && -(b as real) <= v <= b as real
    ensures -b <= SpatialHash.CellOf(v, cellSize) <= b
  {
    var q := v / cellSize;
    assert q * cellSize == v && b as real * (cellSize - 1.0) >= 0.0;
    if q > b as real { ProductsGrow(b as real, q, cellSize); }
    if q < -(b as real) { ProductsGrow(q, -(b as real), cellSize); }
  }

  // No point of the heavy body shares a key with a cell the query visits.
  lemma HeavyNotSeen(x: real, mass: real, sqrt: real -> real, step: real, cellSize: CellSize, offset: int)
    requires cellSize >= 1.0 && 0.0 < step <= cellSize && 0 <= offset < 15
    requires 8.0 <= RadiusForMass(STARTING_MASS, sqrt) <= 20.0
    requires x == -(RadiusForMass(STARTING_MASS, sqrt) + MARGIN + step)
    ensures !BroughtUp(Fresh(x, sqrt), cellSize, Heavy(mass, sqrt).spine[offset])
  {
    var s, p := Fresh(x, sqrt), Heavy(mass, sqrt).spine[offset];
    var reach := s.radius + MARGIN;
    SpatialHash.JustBelowZero(step, cellSize);
    assert Head(s) == Point(x, 0.0) && x + reach == -step;
    LeftEdge(x, reach, step, cellSize);
    CellBounds(-reach, cellSize, 60);
    CellBounds(reach, cellSize, 60);
    CellBounds(p.y, cellSize, 200);
    assert SpatialHash.CellOf(p.x, cellSize) == 0;
    hide SpatialHash.CellOf, SpatialHash.CellKey;
    forall cx: int, cy: int | Queried(s, cellSize, cx, cy)
      ensures SpatialHash.CellKey(cx, cy) != SpatialHash.KeyAt(p.x, p.y, cellSize)
    {
      SpatialHash.CellKeyInjective(cx, cy, 0, SpatialHash.CellOf(p.y, cellSize));
    }
  }

  lemma LeftEdge(x: real, reach: real, step: real, cellSize: real)
    requires cellSize >= 1.0 && 0.0 < step <= cellSize && 48.0 <= reach <= 60.0 && x == -(reach + step)
    ensures -200 <= SpatialHash.CellOf(x - reach, cellSize)
  {
    var q := (x - reach) / cellSize;
    assert q * cellSize == x - reach >= -120.0 - cellSize;
    if q < -200.0 { ProductsGrow(q, -200.0, cellSize); }
  }

  // In this world brute force kills the fresh snake and the sweep does not.
  lemma HeavySnakeMissed(mass: real, cellSize: CellSize, sqrt: real -> real) returns (snakes: map<EntityId, Snake>, radius: real)
    requires IsRoot(sqrt) && mass > 400.0 && cellSize >= 1.0
    ensures Roster([1, 2], snakes) && AllFit(snakes, sqrt) && Lighter(snakes, mass)
    ensures 1 !in Living(All, [1, 2], snakes, radius, 2) && 1 in Living(Grid(cellSize), [1, 2], snakes, radius, 2)
  {
    var mine, theirs := RadiusForMass(STARTING_MASS, sqrt), RadiusForMass(mass, sqrt);
    RootOfTen(sqrt);
    WidthIffMass(Heavy(mass, sqrt).(spine := [Point(0.0, 0.0)]), sqrt);
    var step := if theirs - MARGIN < cellSize then theirs - MARGIN else cellSize;
    var x := -(mine + MARGIN + step);
    radius := 1.0 - x;
    snakes := map[1 := Fresh(x, sqrt), 2 := Heavy(mass, sqrt)];
    HeavyWorldFits(x, mass, sqrt);
    HeavyTouches(x, mass, sqrt);
    SquaresGrow(-x, radius);
    assert !HitsWall(snakes[1], radius);
    forall offset | Touches(snakes[1], snakes[2], offset) ensures !BroughtUp(snakes[1], cellSize, snakes[2].spine[offset]) {
      HeavyNotSeen(x, mass, sqrt, step, cellSize, offset);
    }
    FirstTurn(snakes, radius, cellSize);
  }

  lemma FirstTurn(snakes: map<EntityId, Snake>, radius: real, cellSize: CellSize)
    requires Roster([1, 2], snakes) && snakes.Keys == {1, 2} && snakes[1].alive && snakes[2].alive
    requires !HitsWall(snakes[1], radius) && Touches(snakes[1], snakes[2], NECK)
    requires forall offset :: Touches(snakes[1], snakes[2], offset) ==> !BroughtUp(snakes[1], cellSize, snakes[2].spine[offset])
    ensures 1 !in Living(All, [1, 2], snakes, radius, 2) && 1 in Living(Grid(cellSize), [1, 2], snakes, radius, 2)
  {
    hide Within, BroughtUp, HitsWall;
    var living := Living(All, [1, 2], snakes, radius, 0);
    assert Seen(All, snakes[1], snakes[2].spine[NECK]) && Killer(All, snakes, 1, 2, living);
    assert !Contact(Grid(cellSize), snakes[1], snakes[2]);
    assert forall k :: !Killer(Grid(cellSize), snakes, 1, k, living);
    LivingShrinks(All, [1, 2], snakes, radius, 1, 2);
    assert Living(Grid(cellSize), [1, 2], snakes, radius, 1) == living;
  }

  lemma RootOfTen(sqrt: real -> real)
    requires IsRoot(sqrt)
    ensures 8.0 <= RadiusForMass(STARTING_MASS, sqrt) <= 20.0
  {
    if sqrt(10.0) > 4.0 { SquaresGrow(4.0, sqrt(10.0)); }
  }

  lemma HeavyTouches(x: real, mass: real, sqrt: real -> real)
    requires 0.0 <= -x <= RadiusForMass(STARTING_MASS, sqrt) + RadiusForMass(mass, sqrt)
    ensures Touches(Fresh(x, sqrt), Heavy(mass, sqrt), NECK)
  {
    var reach := RadiusForMass(STARTING_MASS, sqrt) + RadiusForMass(mass, sqrt);
    if -x < reach { SquaresGrow(-x, reach); }
    assert Heavy(mass, sqrt).spine[NECK] == Point(0.0, 0.0);
  }

  ghost predicate Lighter(snakes: map<EntityId, Snake>, mass: real) {
    forall id :: id in snakes ==> snakes[id].mass <= mass
  }

  ghost predicate Agrees(order: seq<EntityId>, snakes: map<EntityId, Snake>, radius: real, cellSize: CellSize)
    requires Roster(order, snakes)
  {
    Living(Grid(cellSize), order, snakes, radius, |order|) == Living(All, order, snakes, radius, |order|)
  }

  // Up to a given mass the sweep kills exactly whom brute force kills, in every
  // world, if and only if that mass is at most 400.
  lemma SweepIsBruteForceIff(mass: real, cellSize: CellSize, sqrt: real -> real)
    requires IsRoot(sqrt) && cellSize >= 1.0
    ensures (forall order: seq<EntityId>, snakes: map<EntityId, Snake>, radius: real ::
              Roster(order, snakes) && AllFit(snakes, sqrt) && Lighter(snakes, mass) ==> Agrees(order, snakes, radius, cellSize))
            <==> mass <= 400.0
  {
    if mass <= 400.0 {
      forall order: seq<EntityId>, snakes: map<EntityId, Snake>, radius: real
        | Roster(order, snakes) && AllFit(snakes, sqrt) && Lighter(snakes, mass)
        ensures Agrees(order, snakes, radius, cellSize)
      {
        forall id | id in snakes ensures snakes[id].radius <= MARGIN { WidthIffMass(snakes[id], sqrt); }
        SlimSweepsSame(order, snakes, radius, cellSize, |order|, []);
      }
    } else {
      var snakes, radius := HeavySnakeMissed(mass, cellSize, sqrt);
      assert !Agrees([1, 2], snakes, radius, cellSize);
    }
  }
}
