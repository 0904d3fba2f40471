// Keeping the world stocked, and letting dropped mass decay.
module FoodSupply {
  import opened Feeding
  import opened Geometry
  import opened Options
  import opened Snakes
  import opened World

  const TRICKLE: int := 8
  const SWEEP_TICKS: int := 30

  function Budget(targetFood: int, count: nat): (b: nat) {
    var deficit := targetFood - count;
    var wanted := if deficit < 0 then 0 else deficit;
    if wanted < TRICKLE then wanted else TRICKLE
  }

  lemma StockedKeeps(snakes: map<EntityId, Snake>, food0: map<EntityId, Food>, food: map<EntityId, Food>, first: EntityId, n: nat,
                     radius: real, sqrt: real -> real, cos: real -> real, sin: real -> real)
    requires Stocked(food0, food, first, n, radius, sqrt, cos, sin) && FreshIds(snakes, food0, first) && Edible(food0)
    ensures FreshIds(snakes, food, first + n) && Edible(food)
  {
    forall id | id in food ensures food[id].mass >= 0.0 {
      if id !in food0 { assert Ordinary(food[id], radius, sqrt, cos, sin); }
    }
    hide Ordinary;
  }

  // A few pellets at a time, never past the target.
  method MaintainFood(world: WorldState) returns (spawned: nat)
    requires world.Consistent()
    modifies world`food, world`nextEntityId, world`drawn
    ensures world.Consistent() && spawned == Budget(world.targetFood, |old(world.food)|)
    ensures world.nextEntityId == old(world.nextEntityId) + spawned && |world.food| == |old(world.food)| + spawned
    ensures Stocked(old(world.food), world.food, old(world.nextEntityId), spawned, world.radius, world.sqrt, world.cos, world.sin)
  {
    ghost var food, first := world.food, world.nextEntityId;
    var deficit := world.targetFood - |world.food|;
    spawned := if deficit < 0 then 0 else deficit;
    if spawned > TRICKLE { spawned := TRICKLE; }
    assert FreshIds(world.snakes, food, first);
    hide Stocked, Linked, AllFit;
    world.Stock(spawned);
    StockedKeeps(world.snakes, food, world.food, first, spawned, world.radius, world.sqrt, world.cos, world.sin);
  }

  predicate Expired(f: Food, tick: int) {
    f.expiresAtTick.Some? && tick >= f.expiresAtTick.value
  }

  function Unexpired(food: map<EntityId, Food>, tick: int): map<EntityId, Food> {
    map id | id in food && !Expired(food[id], tick) :: food[id]
  }

  // What a tick's sweep leaves: only every thirtieth one sweeps.
  function Kept(food: map<EntityId, Food>, tick: int): map<EntityId, Food> {
    if tick % SWEEP_TICKS != 0 then food else Unexpired(food, tick)
  }

  // Every thirtieth tick, in whatever order the map yields the pellets.
  method ExpireFood(world: WorldState)
    requires world.Consistent()
    modifies world`food
    ensures world.Consistent()
    ensures world.food == Kept(old(world.food), world.tick)
  {
    if world.tick % SWEEP_TICKS != 0 { return; }
    hide Linked, AllFit, Expired;
    ghost var food := world.food;
    var todo := world.food.Keys;
    while todo != {}
      invariant world.Consistent() && todo <= world.food.Keys <= food.Keys
      invariant forall id :: id in world.food ==> world.food[id] == food[id]
      invariant forall id :: id in food && id !in todo ==> (id in world.food <==> !Expired(food[id], world.tick))
      decreases |todo|
    {
      ghost var some := Pick(todo);
      var id: EntityId :| id in todo;
      if Expired(world.food[id], world.tick) { world.food := world.food - {id}; }
      todo := todo - {id};
    }
    AllSwept(food, world.food, world.tick);
  }

  lemma AllSwept(before: map<EntityId, Food>, after: map<EntityId, Food>, tick: int)
    requires forall id :: id in after ==> id in before && after[id] == before[id]
    requires forall id :: id in before ==> (id in after <==> !Expired(before[id], tick))
    ensures after == Unexpired(before, tick)
  {
    var kept := Unexpired(before, tick);
    forall id: EntityId | id in after.Keys ensures id in kept.Keys && after[id] == kept[id] {}
    forall id: EntityId | id in kept.Keys ensures id in after.Keys {}
    assert after.Keys == kept.Keys;
  }

  // The last tick before this one at which pellets were swept.
  function LastSweep(tick: int): int {
    (tick - 1) / SWEEP_TICKS * SWEEP_TICKS
  }

  // No pellet was past its time at the last sweep.
  ghost predicate NoneStale(food: map<EntityId, Food>, tick: int) {
    forall id :: id in food && food[id].expiresAtTick.Some? ==> food[id].expiresAtTick.value > LastSweep(tick)
  }

  // So none outlives its time by more than the sweep's period.
  lemma StaleBound(food: map<EntityId, Food>, tick: int, id: EntityId)
    requires NoneStale(food, tick) && id in food && Expired(food[id], tick)
    ensures tick - food[id].expiresAtTick.value < SWEEP_TICKS
  {
  }

  // A tick's sweep keeps it so for the next tick.
  lemma SweepRenews(food: map<EntityId, Food>, tick: int)
    requires NoneStale(food, tick)
    ensures NoneStale(Kept(food, tick), tick + 1)
  {
    if tick % SWEEP_TICKS == 0 {
      assert LastSweep(tick + 1) == tick;
    } else {
      assert LastSweep(tick + 1) == LastSweep(tick);
    }
  }
}
