// The shared state of a room's simulation and the operations on its entities.
module World {
  import opened Angles
  import opened Feeding
  import opened Geometry
  import opened Inputs
  import opened Numbers
  import opened Options
  import opened Snakes

  const FOOD_MASS_MIN: real := 1.0
  const FOOD_MASS_MAX: real := 6.0
  const DECAY_SECONDS: int := 120
  const JITTER: real := 15.0
  const CLEARANCE: real := 400.0
  const ATTEMPTS: int := 12

  // The seeded stream of draws.
  type Random = f: nat -> real | forall n :: 0.0 <= f(n) < 1.0 witness (n: nat) => 0.0

  function DrawAt(random: Random, n: nat): (r: real)
    ensures 0.0 <= r < 1.0
  {
    random(n)
  }

  // ---- Random places -------------------------------------------------------

  function DiscPoint(u: real, v: real, radius: real, sqrt: real -> real, cos: real -> real, sin: real -> real): Point {
    var r, theta := sqrt(u) * radius, v * TURN;
    Point(cos(theta) * r, sin(theta) * r)
  }

  lemma UnitSum(a: real, b: real, z: real)
    requires a + b == 1.0
    ensures a * z + b * z == z
  {
    assert b == 1.0 - a;
  }

  lemma ShareBelow(u: real, z: real)
    requires u <= 1.0 && z >= 0.0
    ensures u * z <= z
  {
    assert (1.0 - u) * z >= 0.0;
  }

  // A drawn place is inside the disc it is drawn for.
  lemma DiscPointInside(u: real, v: real, radius: real, sqrt: real -> real, cos: real -> real, sin: real -> real)
    requires IsRoot(sqrt) && OnCircle(cos, sin) && 0.0 <= u < 1.0
    ensures Inside(DiscPoint(u, v, radius, sqrt, cos, sin), radius)
  {
    var r, theta := sqrt(u) * radius, v * TURN;
    var c, s := cos(theta), sin(theta);
    SquareOfProduct(c, r);
    SquareOfProduct(s, r);
    SquareOfProduct(sqrt(u), radius);
    SquareNotNegative(radius);
    assert Square(sqrt(u)) == u && Square(c) + Square(s) == 1.0;
    hide Square;
    var a, b, z := Square(c), Square(s), Square(r);
    UnitSum(a, b, z);
    ShareBelow(u, Square(radius));
  }

  // The squared distance to the nearest living head among the first n snakes, if any.
  function Nearest(p: Point, order: seq<EntityId>, snakes: map<EntityId, Snake>, n: nat): Option<real>
    requires n <= |order| && forall i :: 0 <= i < |order| ==> order[i] in snakes && Entered(snakes[order[i]], order[i])
  {
    if n == 0 then None
    else
      var nearest, s := Nearest(p, order, snakes, n - 1), snakes[order[n - 1]];
      if !s.alive then nearest
      else
        var d := Square(Head(s).x - p.x) + Square(Head(s).y - p.y);
        if nearest == None || d < nearest.value then Some(d) else nearest
  }

  predicate IsClear(nearest: Option<real>) {
    nearest == None || nearest.value > Square(CLEARANCE)
  }

  // A clear place has no living head within the clearance.
  lemma {:induction false} ClearIff(p: Point, order: seq<EntityId>, snakes: map<EntityId, Snake>, n: nat)
    requires Roster(order, snakes) && n <= |order|
    ensures IsClear(Nearest(p, order, snakes, n)) <==>
              forall i :: 0 <= i < n && snakes[order[i]].alive ==> !Within(Head(snakes[order[i]]), p, CLEARANCE)
  {
    if n > 0 {
      ClearIff(p, order, snakes, n - 1);
      hide Square;
    }
  }

  // ---- Scattering a body ---------------------------------------------------

  // 60% of the mass, in 3 to 60 equal drops.
  function Drops(mass: real): (d: int)
    ensures 3 <= d <= 60
  {
    var n := (mass * 0.6 / 4.0).Floor;
    var atLeast3 := if n < 3 then 3 else n;
    if atLeast3 < 60 then atLeast3 else 60
  }

  function DropOffset(i: int, drops: int, length: int): int
    requires drops > 0
  {
    (i as real / drops as real * length as real).Floor
  }

  // Every drop lies on a real body point.
  lemma DropsOnBody(i: int, drops: int, length: int)
    requires 0 <= i < drops && length >= 1
    ensures 0 <= DropOffset(i, drops, length) < length
  {
    var share := i as real / drops as real;
    assert share * drops as real == i as real;
    assert 0.0 <= share < 1.0;
    assert 0.0 <= share * length as real < length as real;
  }

  // When a drop of this tick decays.
  function ExpiryAt(tick: int, tickRateHz: int): int {
    tick + tickRateHz * DECAY_SECONDS
  }

  function DropMass(s: Snake): real {
    s.mass * 0.6 / Drops(s.mass) as real
  }

  // Drop i of a body: beside its own body point, an equal share, and not for ever.
  ghost predicate IsDrop(s: Snake, i: int, expiry: int, f: Food)
    requires |s.spine| >= 1
  {
    var p := PointAt(s, DropOffset(i, Drops(s.mass), |s.spine|));
    && p.x - JITTER <= f.x < p.x + JITTER && p.y - JITTER <= f.y < p.y + JITTER
    && f.mass == DropMass(s) && f.expiresAtTick == Some(expiry)
  }

  // Pellets with ids from `first` on, each of one drop's mass.
  ghost predicate Scattered(s: Snake, first: EntityId, n: int, pellets: map<EntityId, Food>) {
    && (forall id :: id in pellets <==> first <= id < first + n)
    && forall id :: id in pellets ==> pellets[id].mass == DropMass(s)
  }

  // The first n drops beside the food that was there before.
  ghost predicate Dropping(s: Snake, first: EntityId, n: nat, expiry: int, food0: map<EntityId, Food>, food: map<EntityId, Food>)
    requires |s.spine| >= 1
  {
    && (forall id :: id in food <==> id in food0 || first <= id < first + n)
    && (forall id :: id in food0 ==> id < first && food[id] == food0[id])
    && (forall id :: first <= id < first + n ==> IsDrop(s, id - first, expiry, food[id]))
  }

  lemma DropNext(s: Snake, first: EntityId, n: nat, expiry: int, food0: map<EntityId, Food>, food: map<EntityId, Food>, f: Food)
    requires |s.spine| >= 1 && Dropping(s, first, n, expiry, food0, food) && IsDrop(s, n, expiry, f)
    ensures Dropping(s, first, n + 1, expiry, food0, food[first + n := f])
  {
    hide IsDrop;
  }

  lemma DroppedFresh(s: Snake, first: EntityId, n: nat, expiry: int, snakes: map<EntityId, Snake>, food0: map<EntityId, Food>,
                     food: map<EntityId, Food>)
    requires |s.spine| >= 1 && s.mass >= 0.0
    requires Dropping(s, first, n, expiry, food0, food) && FreshIds(snakes, food0, first) && Edible(food0)
    ensures FreshIds(snakes, food, first + n) && Edible(food)
  {
    forall id | id in food ensures food[id].mass >= 0.0 {
      if id !in food0 { assert IsDrop(s, id - first, expiry, food[id]); }
    }
  }

  lemma DropsAddUp(s: Snake)
    ensures Drops(s.mass) as real * DropMass(s) == s.mass * 0.6
  {
    var drops, total := Drops(s.mass) as real, s.mass * 0.6;
    assert drops * (total / drops) == total;
  }

  lemma DroppedSum(s: Snake, first: EntityId, n: nat, expiry: int, food0: map<EntityId, Food>, food: map<EntityId, Food>)
    requires |s.spine| >= 1 && Dropping(s, first, n, expiry, food0, food)
    ensures SumMass(food) == SumMass(food0) + n as real * DropMass(s)
  {
    forall id: EntityId | id in food0.Keys ensures id in food.Keys && food[id] == food0[id] {}
    assert food0 == map id | id in food0.Keys :: food[id];
    assert Scattered(s, first, n, food - food0.Keys) by { hide PointAt, DropMass; }
    hide SumMass, DropMass, Scattered, Dropping;
    ScatteredSum(s, first, n, food - food0.Keys);
    SumSplits(food, food0.Keys);
  }

  lemma {:induction false} ScatteredSum(s: Snake, first: EntityId, n: nat, pellets: map<EntityId, Food>)
    requires Scattered(s, first, n, pellets)
    ensures SumMass(pellets) == n as real * DropMass(s)
    decreases n
  {
    hide DropMass;
    if n == 0 {
      forall id: EntityId ensures id !in pellets.Keys {}
      assert pellets.Keys == {};
    } else {
      var last := first + n - 1;
      SumAny(pellets, last);
      ScatteredSum(s, first, n - 1, pellets - {last});
    }
  }

  lemma ScatterReady(s: Snake, snakes: map<EntityId, Snake>, food: map<EntityId, Food>, next: EntityId, sqrt: real -> real)
    requires Fit(s, sqrt) && FreshIds(snakes, food, next)
    ensures s.mass >= 0.0 && |s.spine| >= 1 && forall id :: id in food ==> id < next
  {
  }

  lemma ScatterSettles(s: Snake, first: EntityId, drops: nat, expiry: int, snakes: map<EntityId, Snake>,
                       food0: map<EntityId, Food>, food: map<EntityId, Food>)
    requires |s.spine| >= 1 && drops == Drops(s.mass) && Dropping(s, first, drops, expiry, food0, food) && s.mass >= 0.0
    requires FreshIds(snakes, food0, first) && Edible(food0)
    ensures FreshIds(snakes, food, first + drops) && Edible(food)
    ensures SumMass(food) == SumMass(food0) + s.mass * 0.6
  {
    hide *;
    DroppedFresh(s, first, drops, expiry, snakes, food0, food);
    DroppedSum(s, first, drops, expiry, food0, food);
    DropsAddUp(s);
  }

  // ---- The world -----------------------------------------------------------

  // Players and snakes name each other, and inputs wait for present snakes only.
  ghost predicate Linked(order: seq<EntityId>, snakes: map<EntityId, Snake>, playerIndex: map<string, EntityId>,
                         pendingInputs: map<EntityId, seq<Command>>) {
    && Roster(order, snakes)
    && (forall p :: p in playerIndex ==> playerIndex[p] in snakes && snakes[playerIndex[p]].playerId == p)
    && (forall id :: id in snakes ==> snakes[id].playerId in playerIndex && playerIndex[snakes[id].playerId] == id)
    && (forall id :: id in pendingInputs ==> id in snakes)
  }

  // No id is shared, and the next one is unused.
  ghost predicate FreshIds(snakes: map<EntityId, Snake>, food: map<EntityId, Food>, next: EntityId) {
    && (forall id :: id in snakes ==> id < next && id !in food)
    && (forall id :: id in food ==> id < next)
  }

  function Without(order: seq<EntityId>, id: EntityId): (rest: seq<EntityId>)
    ensures forall x :: x in rest <==> x in order && x != id
  {
    if order == [] then [] else if order[0] == id then Without(order[1..], id) else [order[0]] + Without(order[1..], id)
  }

  lemma {:induction false} WithoutDistinct(order: seq<EntityId>, id: EntityId)
    requires forall i, j :: 0 <= i < j < |order| ==> order[i] != order[j]
    ensures var rest := Without(order, id); forall i, j :: 0 <= i < j < |rest| ==> rest[i] != rest[j]
  {
    if order != [] {
      WithoutDistinct(order[1..], id);
      assert order[0] !in order[1..];
      assert order[0] !in Without(order[1..], id);
    }
  }

  lemma LinkAdds(order: seq<EntityId>, snakes: map<EntityId, Snake>, playerIndex: map<string, EntityId>,
                 pendingInputs: map<EntityId, seq<Command>>, id: EntityId, s: Snake)
    requires Linked(order, snakes, playerIndex, pendingInputs) && id !in snakes && Entered(s, id) && s.playerId !in playerIndex
    ensures Linked(order + [id], snakes[id := s], playerIndex[s.playerId := id], pendingInputs)
  {
  }

  lemma LinkDrops(order: seq<EntityId>, snakes: map<EntityId, Snake>, playerIndex: map<string, EntityId>,
                  pendingInputs: map<EntityId, seq<Command>>, p: string)
    requires Linked(order, snakes, playerIndex, pendingInputs) && p in playerIndex
    ensures var id := playerIndex[p]; Linked(Without(order, id), snakes - {id}, playerIndex - {p}, pendingInputs - {id})
  {
    var id := playerIndex[p];
    WithoutDistinct(order, id);
    var rest := Without(order, id);
    forall i | 0 <= i < |rest| ensures rest[i] in snakes - {id} && Entered((snakes - {id})[rest[i]], rest[i]) {
      assert rest[i] in rest;
      var j :| 0 <= j < |order| && order[j] == rest[i];
    }
  }

  // A fresh snake, its tail straight behind its head.
  function Hatched(id: EntityId, playerId: string, position: Point, angle: real, sqrt: real -> real, cos: real -> real,
                   sin: real -> real): (s: Snake)
    ensures Fit(s, sqrt) && Entered(s, id) && s.playerId == playerId && Head(s) == position
    ensures s.alive && s.mass == STARTING_MASS && s.boostDebt == 0.0
  {
    var initial := LengthForMass(STARTING_MASS);
    var spine := seq(initial, i => Point(position.x - cos(angle) * SEGMENT_SPACING * i as real,
                                         position.y - sin(angle) * SEGMENT_SPACING * i as real));
    Snake(id, playerId, spine, STARTING_MASS, RadiusForMass(STARTING_MASS, sqrt), ScoreForMass(STARTING_MASS), true, 0,
          angle, angle, false, 0, 0.0, 0.0)
  }

  lemma OneMoreFits(snakes: map<EntityId, Snake>, food: map<EntityId, Food>, id: EntityId, s: Snake, sqrt: real -> real)
    requires AllFit(snakes, sqrt) && FreshIds(snakes, food, id) && Fit(s, sqrt)
    ensures AllFit(snakes[id := s], sqrt) && FreshIds(snakes[id := s], food, id + 1) && id !in snakes
  {
    hide Fit;
  }

  lemma FewerStayFit(snakes: map<EntityId, Snake>, food: map<EntityId, Food>, next: EntityId, id: EntityId, sqrt: real -> real)
    requires AllFit(snakes, sqrt) && FreshIds(snakes, food, next)
    ensures AllFit(snakes - {id}, sqrt) && FreshIds(snakes - {id}, food, next)
  {
    hide Fit;
  }

  lemma LinkKeeps(order: seq<EntityId>, snakes: map<EntityId, Snake>, playerIndex: map<string, EntityId>,
                  pendingInputs: map<EntityId, seq<Command>>, id: EntityId, s: Snake)
    requires Linked(order, snakes, playerIndex, pendingInputs) && id in snakes && Entered(s, id) && s.playerId == snakes[id].playerId
    ensures Linked(order, snakes[id := s], playerIndex, pendingInputs)
  {
  }

  function QueueOf(pendingInputs: map<EntityId, seq<Command>>, id: EntityId): seq<Command> {
    if id in pendingInputs then pendingInputs[id] else []
  }

  class WorldState {
    // The insertion order of `snakes`, which is the order its iteration follows.
    var order: seq<EntityId>
    var snakes: map<EntityId, Snake>
    var food: map<EntityId, Food>
    var playerIndex: map<string, EntityId>
    var pendingInputs: map<EntityId, seq<Command>>
    var nextEntityId: EntityId
    var tick: int
    var elapsedMs: real
    // How many of the stream's draws are spent.
    var drawn: nat
    const radius: real
    const tickRateHz: int
    const targetFood: int
    const random: Random
    const sqrt: real -> real
    const cos: real -> real
    const sin: real -> real

    ghost predicate Consistent()
      reads this`order, this`snakes, this`food, this`playerIndex, this`pendingInputs, this`nextEntityId
    {
      && Linked(order, snakes, playerIndex, pendingInputs) && AllFit(snakes, sqrt)
      && Edible(food) && FreshIds(snakes, food, nextEntityId)
    }

    // A new world is stocked with its target of pellets and nothing else.
    constructor (radius: real, tickRateHz: int, targetFood: int, random: Random, sqrt: real -> real, cos: real -> real,
                 sin: real -> real)
      ensures Consistent() && tick == 0 && elapsedMs == 0.0
      ensures this.radius == radius && this.tickRateHz == tickRateHz && this.targetFood == targetFood
      ensures this.random == random && this.sqrt == sqrt && this.cos == cos && this.sin == sin
      ensures order == [] && snakes == map[] && playerIndex == map[] && pendingInputs == map[]
      ensures |food| == (if targetFood < 0 then 0 else targetFood) && Stocked(map[], food, 1, |food|, radius, sqrt, cos, sin)
      ensures nextEntityId == 1 + |food|
    {
      order, snakes, food, playerIndex, pendingInputs := [], map[], map[], map[], map[];
      nextEntityId, tick, elapsedMs, drawn := 1, 0, 0.0, 0;
      this.radius, this.tickRateHz, this.targetFood := radius, tickRateHz, targetFood;
      this.random, this.sqrt, this.cos, this.sin := random, sqrt, cos, sin;
      new;
      Stock(if targetFood < 0 then 0 else targetFood);
    }

    method Draw() returns (r: real)
      modifies this`drawn
      ensures r == DrawAt(random, old(drawn)) && drawn == old(drawn) + 1
    {
      r := DrawAt(random, drawn);
      drawn := drawn + 1;
    }

    // A pellet where and as heavy as asked, else drawn; its hue is drawn in any case.
    method SpawnFood(spot: Option<Point>, mass: Option<real>) returns (id: EntityId, f: Food)
      modifies this`food, this`nextEntityId, this`drawn
      ensures id == old(nextEntityId) && nextEntityId == id + 1 && food == old(food)[id := f] && f.expiresAtTick == None
      ensures Point(f.x, f.y) == if spot.Some? then spot.value else
                DiscPoint(DrawAt(random, old(drawn)), DrawAt(random, old(drawn) + 1), radius * 0.97, sqrt, cos, sin)
      ensures if mass.Some? then f.mass == mass.value else FOOD_MASS_MIN <= f.mass < FOOD_MASS_MAX
      ensures drawn == old(drawn) + (if spot.None? then 2 else 0) + (if mass.None? then 1 else 0) + 1
    {
      hide DiscPoint, DrawAt;
      var p: Point;
      if spot.None? {
        var u := Draw();
        var v := Draw();
        p := DiscPoint(u, v, radius * 0.97, sqrt, cos, sin);
      } else {
        p := spot.value;
      }
      var m: real;
      if mass.None? {
        var share := Draw();
        m := FOOD_MASS_MIN + share * (FOOD_MASS_MAX - FOOD_MASS_MIN);
      } else {
        m := mass.value;
      }
      var hue := Draw();
      id := nextEntityId;
      nextEntityId := nextEntityId + 1;
      f := Food(p.x, p.y, m, None);
      food := food[id := f];
    }

    // New pellets, each drawn on its own.
    method Stock(n: nat)
      requires forall id :: id in food ==> id < nextEntityId
      modifies this`food, this`nextEntityId, this`drawn
      ensures nextEntityId == old(nextEntityId) + n && |food| == |old(food)| + n
      ensures Stocked(old(food), food, old(nextEntityId), n, radius, sqrt, cos, sin)
    {
      ghost var food0, first := food, nextEntityId;
      assert Stocked(food0, food, first, 0, radius, sqrt, cos, sin);
      hide Stocked, Ordinary, DiscPoint, DrawAt;
      for i := 0 to n
        invariant nextEntityId == first + i && |food| == |food0| + i
        invariant Stocked(food0, food, first, i, radius, sqrt, cos, sin)
      {
        ghost var before, d := food, drawn;
        var id, f := SpawnFood(None, None);
        DrawnIsOrdinary(f, DrawAt(random, d), DrawAt(random, d + 1), radius, sqrt, cos, sin);
        StockNext(food0, before, first, i, f, radius, sqrt, cos, sin);
        CountNext(before, id, f);
      }
    }

    method NearestHead(candidate: Point) returns (nearest: Option<real>)
      requires Roster(order, snakes)
      ensures nearest == Nearest(candidate, order, snakes, |order|)
      ensures nearest.Some? ==> nearest.value >= 0.0
    {
      NearestNotNegative(candidate, order, snakes, |order|);
      hide Square;
      nearest := None;
      for n := 0 to |order|
        invariant nearest == Nearest(candidate, order, snakes, n)
      {
        var s := snakes[order[n]];
        if s.alive {
          var d := Square(Head(s).x - candidate.x) + Square(Head(s).y - candidate.y);
          if nearest == None || d < nearest.value { nearest := Some(d); }
        }
      }
    }

    method TryPlace() returns (p: Point, nearest: Option<real>)
      requires Roster(order, snakes)
      modifies this`drawn
      ensures p == Place(old(drawn)) && drawn == old(drawn) + 2 && nearest == Nearest(p, order, snakes, |order|)
      ensures nearest.Some? ==> nearest.value >= 0.0
    {
      hide Nearest, DiscPoint, DrawAt, Roster;
      var u := Draw();
      var v := Draw();
      p := DiscPoint(u, v, radius * 0.85, sqrt, cos, sin);
      nearest := NearestHead(p);
    }

    // A place clear of other snakes: the first of twelve draws that has room
    // enough, else the best of them.
    method FindSpawnPoint() returns (p: Point, ghost k: nat)
      requires Roster(order, snakes)
      modifies this`drawn
      ensures k < ATTEMPTS && p == Candidate(old(drawn), k)
      ensures if IsClear(Room(old(drawn), k)) then drawn == old(drawn) + 2 * (k + 1) && Crowded(old(drawn), k)
              else drawn == old(drawn) + 2 * ATTEMPTS && Crowded(old(drawn), ATTEMPTS) && Roomiest(old(drawn), ATTEMPTS, k)
    {
      hide Nearest, Square, DiscPoint, Roster, DrawAt, Roomiest, Crowded;
      ghost var first := drawn;
      CrowdedAt(first, 0, 0);
      var best, bestDistance := Point(0.0, 0.0), -1.0;
      k := 0;
      for attempt := 0 to ATTEMPTS
        invariant drawn == first + 2 * attempt && order == old(order) && snakes == old(snakes)
        invariant Failed(first, attempt, k) && Crowded(first, attempt)
        invariant if attempt == 0 then bestDistance == -1.0 else best == Candidate(first, k) && Some(bestDistance) == Room(first, k)
      {
        var candidate, nearest := TryPlace();
        assert candidate == Candidate(first, attempt) && nearest == Room(first, attempt);
        if IsClear(nearest) { return candidate, attempt; }
        AttemptFails(first, attempt, k);
        if nearest.value > bestDistance {
          bestDistance := nearest.value;
          best := candidate;
          k := attempt;
        }
      }
      CrowdedAt(first, ATTEMPTS, k);
      return best, k;
    }

    // None of the first n attempts has room enough.
    ghost predicate Crowded(first: nat, n: nat)
      requires Roster(order, snakes)
      reads this`order, this`snakes
    {
      forall j: nat :: j < n ==> !IsClear(Room(first, j))
    }

    lemma CrowdedAt(first: nat, n: nat, k: nat)
      requires Roster(order, snakes)
      ensures n == 0 ==> Crowded(first, n)
      ensures Crowded(first, n) && k < n ==> !IsClear(Room(first, k))
    {
    }

    // Attempt k has the most room of the first n.
    ghost predicate Roomiest(first: nat, n: nat, k: nat)
      requires Roster(order, snakes)
      reads this`order, this`snakes
    {
      forall j: nat :: j < n && Room(first, j).Some? ==> Room(first, k).Some? && Room(first, j).value <= Room(first, k).value
    }

    // Attempt k is the best of the first n.
    ghost predicate Failed(first: nat, n: nat, k: nat)
      requires Roster(order, snakes)
      reads this`order, this`snakes
    {
      n > 0 ==> k < n && Room(first, k).Some? && Roomiest(first, n, k)
    }

    lemma AttemptFails(first: nat, n: nat, k: nat)
      requires Roster(order, snakes) && Crowded(first, n) && Failed(first, n, k) && !IsClear(Room(first, n))
      ensures Crowded(first, n + 1)
      ensures Failed(first, n + 1, if n == 0 || Room(first, n).value > Room(first, k).value then n else k)
    {
      hide Nearest, Square, Roster;
    }

    // The place the next two draws give.
    function Place(at: nat): Point {
      DiscPoint(DrawAt(random, at), DrawAt(random, at + 1), radius * 0.85, sqrt, cos, sin)
    }

    // The place the k-th attempt draws.
    function Candidate(first: nat, k: nat): Point {
      Place(first + 2 * k)
    }

    // How much room it has.
    function Room(first: nat, k: nat): Option<real>
      requires Roster(order, snakes)
      reads this`order, this`snakes
    {
      Nearest(Candidate(first, k), order, snakes, |order|)
    }

    lemma CandidateInside(first: nat, k: nat)
      ensures IsRoot(sqrt) && OnCircle(cos, sin) ==> Inside(Candidate(first, k), radius * 0.85)
    {
      if IsRoot(sqrt) && OnCircle(cos, sin) {
        DiscPointInside(DrawAt(random, first + 2 * k), DrawAt(random, first + 2 * k + 1), radius * 0.85, sqrt, cos, sin);
      }
    }

    // A known player keeps its snake; a new one gets a fresh id, last in the order.
    method SpawnSnake(playerId: string) returns (id: EntityId)
      requires Consistent()
      modifies this`order, this`snakes, this`playerIndex, this`nextEntityId, this`drawn
      ensures Consistent() && playerId in playerIndex && id == playerIndex[playerId]
      ensures if playerId in old(playerIndex) then
                && order == old(order) && snakes == old(snakes) && playerIndex == old(playerIndex)
                && nextEntityId == old(nextEntityId) && drawn == old(drawn)
              else
                && id == old(nextEntityId) && nextEntityId == old(nextEntityId) + 1 && order == old(order) + [id]
                && playerIndex == old(playerIndex)[playerId := id] && snakes == old(snakes)[id := snakes[id]]
                && snakes[id].alive && snakes[id].mass == STARTING_MASS && snakes[id].boostDebt == 0.0
                && (IsRoot(sqrt) && OnCircle(cos, sin) ==> Inside(Head(snakes[id]), radius * 0.85))
    {
      if playerId in playerIndex {
        return playerIndex[playerId];
      }
      hide Inside, IsRoot, OnCircle, DiscPoint, DrawAt;
      ghost var first := drawn;
      var position, k := FindSpawnPoint();
      CandidateInside(first, k);
      var turn := Draw();
      var angle := turn * TURN;
      id := nextEntityId;
      nextEntityId := nextEntityId + 1;
      var snake := Hatched(id, playerId, position, angle, sqrt, cos, sin);
      hide Hatched, Linked, Fit, FreshIds, AllFit, Edible;
      LinkAdds(order, snakes, playerIndex, pendingInputs, id, snake);
      OneMoreFits(snakes, food, id, snake, sqrt);
      snakes := snakes[id := snake];
      order := order + [id];
      playerIndex := playerIndex[playerId := id];
    }

    method EnqueueInput(playerId: string, command: Command)
      requires Consistent()
      modifies this`pendingInputs
      ensures Consistent()
      ensures playerId !in playerIndex ==> pendingInputs == old(pendingInputs)
      ensures playerId in playerIndex ==>
                var id := playerIndex[playerId];
                pendingInputs == old(pendingInputs)[id := QueueOf(old(pendingInputs), id) + [command]]
    {
      if playerId !in playerIndex { return; }
      var id := playerIndex[playerId];
      assert [] + [command] == [command];
      if id in pendingInputs { pendingInputs := pendingInputs[id := pendingInputs[id] + [command]]; }
      else { pendingInputs := pendingInputs[id := [command]]; }
    }

    // Every queue empties; only living snakes obey theirs.
    method ApplyInputs()
      requires Consistent()
      modifies this`snakes, this`pendingInputs
      ensures Consistent()
      ensures pendingInputs == Emptied(old(pendingInputs), old(pendingInputs).Keys)
      ensures snakes == Steered(old(snakes), old(pendingInputs), old(pendingInputs).Keys)
    {
      ghost var snakes0, pending0 := snakes, pendingInputs;
      ghost var done: set<EntityId> := {};
      var todo := pendingInputs.Keys;
      SteerNone(snakes, pendingInputs);
      hide Linked, AllFit, Edible, FreshIds, Emptied, Steered, Drained, Roster, Fit;
      while todo != {}
        invariant Linked(order, snakes, playerIndex, pendingInputs) && AllFit(snakes, sqrt)
        invariant Edible(food) && FreshIds(snakes, food, nextEntityId)
        invariant todo <= pendingInputs.Keys == pending0.Keys && done == pending0.Keys - todo
        invariant pendingInputs == Emptied(pending0, done)
        invariant snakes == Steered(snakes0, pending0, done)
        decreases |todo|
      {
        ghost var some := Pick(todo);
        var id: EntityId :| id in todo;
        SteerNext(order, snakes, snakes0, playerIndex, pendingInputs, pending0, done, id, sqrt, food, nextEntityId);
        if id in snakes && snakes[id].alive {
          var steered := Drain(snakes[id], pendingInputs[id]);
          snakes := snakes[id := steered];
        }
        pendingInputs := pendingInputs[id := []];
        todo := todo - {id};
        done := done + {id};
      }
      assert done == pending0.Keys;
    }

    // The drops are new pellets beside the body that add up to 60% of it.
    method ScatterMass(s: Snake)
      requires Consistent() && Fit(s, sqrt)
      modifies this`food, this`nextEntityId, this`drawn
      ensures Consistent() && nextEntityId == old(nextEntityId) + Drops(s.mass)
      ensures Dropping(s, old(nextEntityId), Drops(s.mass), ExpiryAt(tick, tickRateHz), old(food), food)
      ensures SumMass(food) == SumMass(old(food)) + s.mass * 0.6
    {
      hide Linked, AllFit, Fit, SumMass, FreshIds, Edible, Dropping, Drops, DropMass;
      ghost var food0, first := food, nextEntityId;
      ScatterReady(s, snakes, food, nextEntityId, sqrt);
      var drops := DropAll(s);
      ScatterSettles(s, first, drops, ExpiryAt(tick, tickRateHz), snakes, food0, food);
    }

    method DropAll(s: Snake) returns (drops: int)
      requires |s.spine| >= 1 && forall id :: id in food ==> id < nextEntityId
      modifies this`food, this`nextEntityId, this`drawn
      ensures drops == Drops(s.mass) && nextEntityId == old(nextEntityId) + drops
      ensures Dropping(s, old(nextEntityId), drops, ExpiryAt(tick, tickRateHz), old(food), food)
    {
      ghost var food0, first, expiry := food, nextEntityId, ExpiryAt(tick, tickRateHz);
      var total := s.mass * 0.6;
      drops := Drops(s.mass);
      var per := total / drops as real;
      assert Dropping(s, first, 0, expiry, food0, food) && per == DropMass(s);
      hide Dropping, Drops, DropMass, DropOffset, DrawAt;
      for i := 0 to drops
        invariant nextEntityId == first + i && Dropping(s, first, i, expiry, food0, food)
      {
        ghost var before := food;
        var pointIndex := DropOffset(i, drops, |s.spine|);
        var point := PointAt(s, pointIndex);
        var jitterX := Draw();
        var jitterY := Draw();
        var spot := Point(point.x + (jitterX - 0.5) * 30.0, point.y + (jitterY - 0.5) * 30.0);
        var id, pellet := SpawnFood(Some(spot), Some(per));
        pellet := pellet.(expiresAtTick := Some(ExpiryAt(tick, tickRateHz)));
        food := food[id := pellet];
        DropNext(s, first, i, expiry, food0, before, pellet);
        assert food == before[id := pellet];
      }
    }

    method DespawnSnake(playerId: string, scatter: bool)
      requires Consistent()
      modifies this`order, this`snakes, this`playerIndex, this`pendingInputs, this`food, this`nextEntityId, this`drawn
      ensures Consistent() && playerId !in playerIndex && playerIndex == old(playerIndex) - {playerId}
      ensures if playerId !in old(playerIndex) then
                && snakes == old(snakes) && order == old(order) && pendingInputs == old(pendingInputs)
                && food == old(food) && nextEntityId == old(nextEntityId)
              else
                var id := old(playerIndex)[playerId];
                && snakes == old(snakes) - {id} && order == Without(old(order), id)
                && pendingInputs == old(pendingInputs) - {id} && |old(snakes)[id].spine| >= 1
                && if scatter then
                     && nextEntityId == old(nextEntityId) + Drops(old(snakes)[id].mass)
                     && Dropping(old(snakes)[id], old(nextEntityId), Drops(old(snakes)[id].mass),
                                 ExpiryAt(tick, tickRateHz), old(food), food)
                     && SumMass(food) == SumMass(old(food)) + old(snakes)[id].mass * 0.6
                   else food == old(food) && nextEntityId == old(nextEntityId)
    {
      if playerId !in playerIndex { return; }
      var id := playerIndex[playerId];
      assert id in snakes && Fit(snakes[id], sqrt) && |snakes[id].spine| >= 1;
      hide Linked, Dropping, SumMass, Drops, Without, Fit, AllFit, FreshIds, Edible;
      if scatter { ScatterMass(snakes[id]); }
      Forget(playerId);
    }

    method Forget(playerId: string)
      requires Consistent() && playerId in playerIndex
      modifies this`order, this`snakes, this`playerIndex, this`pendingInputs
      ensures Consistent() && playerIndex == old(playerIndex) - {playerId}
      ensures var id := old(playerIndex)[playerId];
              snakes == old(snakes) - {id} && order == Without(old(order), id) && pendingInputs == old(pendingInputs) - {id}
    {
      var id := playerIndex[playerId];
      LinkDrops(order, snakes, playerIndex, pendingInputs, playerId);
      FewerStayFit(snakes, food, nextEntityId, id, sqrt);
      hide Linked, Without, AllFit, FreshIds, Edible;
      order := Without(order, id);
      snakes := snakes - {id};
      playerIndex := playerIndex - {playerId};
      pendingInputs := pendingInputs - {id};
    }
  }

  // A pellet as the world stocks it: in the disc, of ordinary mass and without decay.
  ghost predicate Ordinary(f: Food, radius: real, sqrt: real -> real, cos: real -> real, sin: real -> real) {
    && FOOD_MASS_MIN <= f.mass < FOOD_MASS_MAX && f.expiresAtTick == None
    && (IsRoot(sqrt) && OnCircle(cos, sin) ==> Inside(Point(f.x, f.y), radius * 0.97))
  }

  // The first n new pellets beside the food that was there before.
  ghost predicate Stocked(food0: map<EntityId, Food>, food: map<EntityId, Food>, first: EntityId, n: int,
                          radius: real, sqrt: real -> real, cos: real -> real, sin: real -> real) {
    && (forall id :: id in food <==> id in food0 || first <= id < first + n)
    && (forall id :: id in food0 ==> id < first && food[id] == food0[id])
    && (forall id :: first <= id < first + n ==> Ordinary(food[id], radius, sqrt, cos, sin))
  }

  lemma DrawnIsOrdinary(f: Food, u: real, v: real, radius: real, sqrt: real -> real, cos: real -> real, sin: real -> real)
    requires FOOD_MASS_MIN <= f.mass < FOOD_MASS_MAX && f.expiresAtTick == None && 0.0 <= u < 1.0
    requires Point(f.x, f.y) == DiscPoint(u, v, radius * 0.97, sqrt, cos, sin)
    ensures Ordinary(f, radius, sqrt, cos, sin)
  {
    hide DiscPoint, Inside, IsRoot, OnCircle;
    if IsRoot(sqrt) && OnCircle(cos, sin) { DiscPointInside(u, v, radius * 0.97, sqrt, cos, sin); }
  }

  lemma StockNext(food0: map<EntityId, Food>, food: map<EntityId, Food>, first: EntityId, i: nat, f: Food,
                  radius: real, sqrt: real -> real, cos: real -> real, sin: real -> real)
    requires Stocked(food0, food, first, i, radius, sqrt, cos, sin) && Ordinary(f, radius, sqrt, cos, sin)
    ensures Stocked(food0, food[first + i := f], first, i + 1, radius, sqrt, cos, sin)
    ensures first + i !in food
  {
    hide Ordinary;
  }

  lemma CountNext(food: map<EntityId, Food>, id: EntityId, f: Food)
    requires id !in food
    ensures |food[id := f]| == |food| + 1
  {
    assert food[id := f].Keys == food.Keys + {id};
  }

  lemma {:induction false} NearestNotNegative(p: Point, order: seq<EntityId>, snakes: map<EntityId, Snake>, n: nat)
    requires Roster(order, snakes) && n <= |order|
    ensures Nearest(p, order, snakes, n).Some? ==> Nearest(p, order, snakes, n).value >= 0.0
  {
    if n > 0 {
      NearestNotNegative(p, order, snakes, n - 1);
      var head := Head(snakes[order[n - 1]]);
      SquareNotNegative(head.x - p.x);
      SquareNotNegative(head.y - p.y);
      hide Square;
    }
  }

  // The commands take effect in arrival order.
  method Drain(s: Snake, queue: seq<Command>) returns (snake: Snake)
    ensures snake == Drained(s, queue)
  {
    snake := s;
    for k := 0 to |queue|
      invariant snake == Drained(s, queue[..k])
    {
      assert queue[..k + 1][..k] == queue[..k];
      if queue[k].seqNo > snake.lastAckSeq {
        snake := snake.(targetAngle := queue[k].angle, boosting := queue[k].boost, lastAckSeq := queue[k].seqNo);
      }
    }
    assert queue[..|queue|] == queue;
  }

  ghost function Emptied(pending: map<EntityId, seq<Command>>, done: set<EntityId>): map<EntityId, seq<Command>> {
    map id | id in pending :: if id in done then [] else pending[id]
  }

  ghost function Steered(snakes: map<EntityId, Snake>, pending: map<EntityId, seq<Command>>, done: set<EntityId>):
      map<EntityId, Snake> {
    map id | id in snakes ::
      if id in done && id in pending && snakes[id].alive then Drained(snakes[id], pending[id]) else snakes[id]
  }

  lemma SteerNone(snakes: map<EntityId, Snake>, pending: map<EntityId, seq<Command>>)
    ensures snakes == Steered(snakes, pending, {}) && pending == Emptied(pending, {})
  {
  }

  lemma SteerNext(order: seq<EntityId>, snakes: map<EntityId, Snake>, snakes0: map<EntityId, Snake>,
                  playerIndex: map<string, EntityId>, pending: map<EntityId, seq<Command>>, pending0: map<EntityId, seq<Command>>,
                  done: set<EntityId>, id: EntityId, sqrt: real -> real, food: map<EntityId, Food>, next: EntityId)
    requires Linked(order, snakes, playerIndex, pending) && AllFit(snakes, sqrt) && FreshIds(snakes, food, next)
    requires id in pending && id !in done && pending == Emptied(pending0, done) && snakes == Steered(snakes0, pending0, done)
    ensures var pending' := pending[id := []];
            && pending' == Emptied(pending0, done + {id}) && id in snakes && pending[id] == pending0[id]
            && var snakes' := if snakes[id].alive then snakes[id := Drained(snakes[id], pending[id])] else snakes;
            && snakes' == Steered(snakes0, pending0, done + {id})
            && Linked(order, snakes', playerIndex, pending') && AllFit(snakes', sqrt) && FreshIds(snakes', food, next)
  {
    DrainKeepsBody(snakes[id], pending[id]);
    hide Drained;
    LinkKeeps(order, snakes, playerIndex, pending, id, Drained(snakes[id], pending[id]));
  }

  lemma {:induction false} DrainKeepsBody(s: Snake, queue: seq<Command>)
    ensures var d := Drained(s, queue);
            && d.id == s.id && d.playerId == s.playerId && d.spine == s.spine && d.alive == s.alive
            && d.mass == s.mass && d.radius == s.radius && d.score == s.score
  {
    if queue != [] { DrainKeepsBody(s, queue[..|queue| - 1]); }
  }
}
