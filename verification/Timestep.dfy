// One fixed timestep of the world, phase by phase.
module Timestep {
  import opened Collisions
  import opened Feeding
  import opened FoodSupply
  import opened Geometry
  import opened Movement
  import opened Scattering
  import opened Snakes
  import opened World
  import Eating
  import SpatialHash
  import Sweep

  datatype TickResult = TickResult(tick: int, deaths: seq<Death>, foodConsumed: nat, foodSpawned: nat)

  // What the phases of a tick leave, for the account of it.
  datatype Trace = Trace(moved: map<EntityId, Snake>, left: map<EntityId, Food>, fed: map<EntityId, Snake>,
                         strewn: map<EntityId, Food>, stocked: map<EntityId, Food>)

  // What a tick reads and writes of a world, and what it only reads.
  datatype State = State(order: seq<EntityId>, snakes: map<EntityId, Snake>, food: map<EntityId, Food>,
                         playerIndex: map<string, EntityId>, pendingInputs: map<EntityId, seq<Command>>,
                         nextEntityId: EntityId, tick: int)

  datatype Rules = Rules(cellSize: CellSize, radius: real, tickRateHz: int, targetFood: int,
                         sqrt: real -> real, cos: real -> real, sin: real -> real)

  function StateOf(world: WorldState): State
    reads world
  {
    State(world.order, world.snakes, world.food, world.playerIndex, world.pendingInputs, world.nextEntityId, world.tick)
  }

  function RulesOf(world: WorldState, cellSize: CellSize): Rules {
    Rules(cellSize, world.radius, world.tickRateHz, world.targetFood, world.sqrt, world.cos, world.sin)
  }

  // Inputs and movement, then eating.
  ghost predicate Grown(r: Rules, order: seq<EntityId>, snakes: map<EntityId, Snake>, pending: map<EntityId, seq<Command>>,
                        food: map<EntityId, Food>, consumed: nat, moved: map<EntityId, Snake>, left: map<EntityId, Food>,
                        fed: map<EntityId, Snake>) {
    && r.tickRateHz >= 1
    && moved == AllMoved(Steered(snakes, pending, pending.Keys), DtSeconds(r.tickRateHz), r.sqrt, r.cos, r.sin)
    && Grazed(order, moved, food, left, fed, r.sqrt) && consumed == |food| - |left| && AllFit(fed, r.sqrt)
  }

  // Collisions and the bodies they leave, then new pellets, then decay.
  ghost predicate Culled(r: Rules, order: seq<EntityId>, tick: int, fed: map<EntityId, Snake>, left: map<EntityId, Food>,
                         first: EntityId, deaths: seq<Death>, spawned: nat, strewn: map<EntityId, Food>,
                         stocked: map<EntityId, Food>, snakes: map<EntityId, Snake>, food: map<EntityId, Food>, next: EntityId) {
    && Reckoned(Grid(r.cellSize), order, fed, snakes, r.radius, deaths, first, ExpiryAt(tick, r.tickRateHz), left, strewn)
    && VictimsIn(deaths, fed) && spawned == Budget(r.targetFood, |strewn|)
    && Stocked(strewn, stocked, After(deaths, fed, first), spawned, r.radius, r.sqrt, r.cos, r.sin)
    && next == After(deaths, fed, first) + spawned && food == Kept(stocked, tick) && Edible(stocked)
  }

  // A tick is both, in this order.
  ghost predicate Ticked(r: Rules, before: State, after: State, result: TickResult, t: Trace) {
    && after.order == before.order && after.playerIndex == before.playerIndex
    && after.tick == before.tick + 1 == result.tick
    && after.pendingInputs == Emptied(before.pendingInputs, before.pendingInputs.Keys)
    && Grown(r, before.order, before.snakes, before.pendingInputs, before.food, result.foodConsumed, t.moved, t.left, t.fed)
    && Culled(r, before.order, before.tick, t.fed, t.left, before.nextEntityId, result.deaths, result.foodSpawned, t.strewn,
              t.stocked, after.snakes, after.food, after.nextEntityId)
  }

  // Every pellet went to its first living reacher.
  ghost predicate Grazed(order: seq<EntityId>, before: map<EntityId, Snake>, food: map<EntityId, Food>, left: map<EntityId, Food>,
                         after: map<EntityId, Snake>, sqrt: real -> real) {
    && Roster(order, before) && left == Left(order, before, food, |order|)
    && Eaten(order, before, after, food, |order|, sqrt)
  }

  lemma AllGrown(r: Rules, order: seq<EntityId>, snakes: map<EntityId, Snake>, pending: map<EntityId, seq<Command>>,
                 food: map<EntityId, Food>, consumed: nat, moved: map<EntityId, Snake>, left: map<EntityId, Food>,
                 fed: map<EntityId, Snake>)
    requires r.tickRateHz >= 1 && Roster(order, moved)
    requires moved == AllMoved(Steered(snakes, pending, pending.Keys), DtSeconds(r.tickRateHz), r.sqrt, r.cos, r.sin)
    requires left == Left(order, moved, food, |order|) && Eaten(order, moved, fed, food, |order|, r.sqrt)
    requires consumed == |food| - |left| && AllFit(fed, r.sqrt)
    ensures Grown(r, order, snakes, pending, food, consumed, moved, left, fed)
  {
    hide AllMoved, Steered, DtSeconds, Roster, Left, Eaten, AllFit;
  }

  lemma AllCulled(r: Rules, order: seq<EntityId>, tick: int, fed: map<EntityId, Snake>, left: map<EntityId, Food>,
                  first: EntityId, deaths: seq<Death>, spawned: nat, strewn: map<EntityId, Food>,
                  stocked: map<EntityId, Food>, snakes: map<EntityId, Snake>, food: map<EntityId, Food>)
    requires Reckoned(Grid(r.cellSize), order, fed, snakes, r.radius, deaths, first, ExpiryAt(tick, r.tickRateHz), left, strewn)
    requires VictimsIn(deaths, fed) && spawned == Budget(r.targetFood, |strewn|)
    requires Stocked(strewn, stocked, After(deaths, fed, first), spawned, r.radius, r.sqrt, r.cos, r.sin)
    requires food == Kept(stocked, tick) && Edible(stocked)
    ensures Culled(r, order, tick, fed, left, first, deaths, spawned, strewn, stocked, snakes, food,
                   After(deaths, fed, first) + spawned)
  {
    hide Reckoned, ExpiryAt, VictimsIn, Budget, Stocked, After, Kept, Edible;
  }

  class Simulation {
    const foodHash: SpatialHash.Hash
    const bodies: Sweep.BodyIndex

    ghost predicate Valid()
      reads foodHash, bodies, bodies.hash
    {
      foodHash.cellSize > 0.0 && bodies.hash.cellSize > 0.0
    }

    constructor (cellSize: real)
      requires cellSize > 0.0
      ensures Valid() && fresh(foodHash) && fresh(bodies) && fresh(bodies.hash) && bodies.hash.cellSize == cellSize
    {
      foodHash := new SpatialHash.Hash(cellSize);
      bodies := new Sweep.BodyIndex(cellSize);
    }

    // Inputs, then movement, then eating.
    method MoveAndEat(world: WorldState) returns (consumed: nat, ghost moved: map<EntityId, Snake>)
      requires Valid() && world.Consistent() && world.tickRateHz >= 1
      modifies world`snakes, world`pendingInputs, world`food, foodHash`buckets
      ensures world.Consistent() && world.pendingInputs == Emptied(old(world.pendingInputs), old(world.pendingInputs).Keys)
      ensures Grown(RulesOf(world, bodies.hash.cellSize), world.order, old(world.snakes), old(world.pendingInputs),
                    old(world.food), consumed, moved, world.food, world.snakes)
    {
      Sizes();
      ghost var r := RulesOf(world, bodies.hash.cellSize);
      hide *;
      ghost var order, snakes, pending, food := world.order, world.snakes, world.pendingInputs, world.food;
      world.ApplyInputs();
      MoveSnakes(world);
      moved := world.snakes;
      Eating.RebuildFoodHash(world, foodHash);
      ConsistentRoster(world);
      consumed := Eating.ConsumeFood(world, foodHash);
      ConsistentRoster(world);
      AllGrown(r, order, snakes, pending, food, consumed, moved, world.food, world.snakes);
    }

    method Collide(world: WorldState) returns (deaths: seq<Death>)
      requires bodies.hash.cellSize > 0.0 && world.Consistent()
      modifies world`snakes, world`food, world`nextEntityId, world`drawn, bodies, bodies.hash`buckets
      ensures world.Consistent()
      ensures Reckoned(Grid(bodies.hash.cellSize), world.order, old(world.snakes), world.snakes, world.radius, deaths,
                       old(world.nextEntityId), ExpiryAt(world.tick, world.tickRateHz), old(world.food), world.food)
      ensures VictimsIn(deaths, old(world.snakes))
      ensures world.nextEntityId == After(deaths, old(world.snakes), old(world.nextEntityId))
    {
      hide *;
      ConsistentRoster(world);
      bodies.Rebuild(world);
      deaths := DetectCollisions(world, bodies);
    }

    method Restock(world: WorldState) returns (spawned: nat, ghost stocked: map<EntityId, Food>)
      requires world.Consistent()
      modifies world`food, world`nextEntityId, world`drawn
      ensures world.Consistent() && spawned == Budget(world.targetFood, |old(world.food)|)
      ensures world.nextEntityId == old(world.nextEntityId) + spawned && world.food == Kept(stocked, world.tick) && Edible(stocked)
      ensures Stocked(old(world.food), stocked, old(world.nextEntityId), spawned, world.radius, world.sqrt, world.cos, world.sin)
    {
      hide *;
      spawned := MaintainFood(world);
      stocked := world.food;
      ConsistentRoster(world);
      ExpireFood(world);
    }

    // Collisions and the bodies they leave, then new pellets, then decay.
    method CollideAndRestock(world: WorldState)
      returns (deaths: seq<Death>, spawned: nat, ghost strewn: map<EntityId, Food>, ghost stocked: map<EntityId, Food>)
      requires Valid() && world.Consistent()
      modifies world`snakes, world`food, world`nextEntityId, world`drawn, bodies, bodies.hash`buckets
      ensures world.Consistent()
      ensures Culled(RulesOf(world, bodies.hash.cellSize), world.order, world.tick, old(world.snakes), old(world.food),
                     old(world.nextEntityId), deaths, spawned, strewn, stocked, world.snakes, world.food, world.nextEntityId)
    {
      Sizes();
      ghost var r := RulesOf(world, bodies.hash.cellSize);
      hide *;
      ghost var fed, left, first := world.snakes, world.food, world.nextEntityId;
      deaths := Collide(world);
      strewn := world.food;
      spawned, stocked := Restock(world);
      AllCulled(r, world.order, world.tick, fed, left, first, deaths, spawned, strewn, stocked, world.snakes, world.food);
    }

    // Collisions come last, so that a snake cannot pass through a body it should
    // have hit; then the food is refilled and swept.
    method Step(world: WorldState) returns (result: TickResult, ghost t: Trace)
      requires Valid() && world.Consistent() && world.tickRateHz >= 1
      modifies world, foodHash`buckets, bodies, bodies.hash`buckets
      ensures world.Consistent()
      ensures Ticked(RulesOf(world, bodies.hash.cellSize), old(StateOf(world)), StateOf(world), result, t)
      ensures world.elapsedMs == old(world.elapsedMs) + DtSeconds(world.tickRateHz) * 1000.0
    {
      Sizes();
      hide Grown, Culled, Emptied, DtSeconds;
      var consumed, moved := MoveAndEat(world);
      ghost var left, fed := world.food, world.snakes;
      var deaths, spawned, strewn, stocked := CollideAndRestock(world);
      t := Trace(moved, left, fed, strewn, stocked);
      world.tick := world.tick + 1;
      world.elapsedMs := world.elapsedMs + DtSeconds(world.tickRateHz) * 1000.0;
      result := TickResult(world.tick, deaths, consumed, spawned);
    }

    lemma Sizes()
      requires Valid()
      ensures foodHash.cellSize > 0.0 && bodies.hash.cellSize > 0.0
    {
    }
  }

  lemma ConsistentRoster(world: WorldState)
    requires world.Consistent()
    ensures Roster(world.order, world.snakes) && AllFit(world.snakes, world.sqrt) && Edible(world.food)
  {
  }
}
