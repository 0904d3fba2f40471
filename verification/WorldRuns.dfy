// Whole runs of a world: players come, leave and steer, and the clock ticks.
module WorldRuns {
  import opened Collisions
  import opened Feeding
  import opened FoodSupply
  import opened Geometry
  import opened Matter
  import opened Movement
  import opened Numbers
  import opened Scattering
  import opened Snakes
  import opened Timestep
  import opened World

  datatype Op = Spawn(playerId: string) | Despawn(playerId: string, scatter: bool)
              | Enqueue(playerId: string, command: Command) | Tick

  // An operation and what is known of how it went.
  datatype Event = Spawned(playerId: string) | Despawned(playerId: string, scatter: bool)
                 | Enqueued(playerId: string, command: Command) | Stepped(result: TickResult, t: Trace)

  function OpOf(e: Event): Op {
    match e
    case Spawned(p) => Spawn(p)
    case Despawned(p, scatter) => Despawn(p, scatter)
    case Enqueued(p, c) => Enqueue(p, c)
    case Stepped(_, _) => Tick
  }

  // `Consistent` of a state.
  ghost predicate Sound(s: State, sqrt: real -> real) {
    && Linked(s.order, s.snakes, s.playerIndex, s.pendingInputs) && AllFit(s.snakes, sqrt)
    && Edible(s.food) && FreshIds(s.snakes, s.food, s.nextEntityId)
  }

  ghost predicate Arrives(s: State, p: string, s': State) {
    if p in s.playerIndex then s' == s
    else
      var id := s.nextEntityId;
      && id in s'.snakes && s'.snakes[id].alive && s'.snakes[id].mass == STARTING_MASS
      && s' == s.(order := s.order + [id], snakes := s.snakes[id := s'.snakes[id]], playerIndex := s.playerIndex[p := id],
                  nextEntityId := id + 1)
  }

  ghost predicate Leaves(r: Rules, s: State, p: string, scatter: bool, s': State) {
    if p !in s.playerIndex then s' == s
    else
      var id := s.playerIndex[p];
      && id in s.snakes && |s.snakes[id].spine| >= 1
      && s' == s.(order := Without(s.order, id), snakes := s.snakes - {id}, playerIndex := s.playerIndex - {p},
                  pendingInputs := s.pendingInputs - {id}, food := s'.food, nextEntityId := s'.nextEntityId)
      && if scatter then
           && s'.nextEntityId == s.nextEntityId + Drops(s.snakes[id].mass)
           && Dropping(s.snakes[id], s.nextEntityId, Drops(s.snakes[id].mass), ExpiryAt(s.tick, r.tickRateHz), s.food, s'.food)
           && SumMass(s'.food) == SumMass(s.food) + s.snakes[id].mass * 0.6
         else s'.food == s.food && s'.nextEntityId == s.nextEntityId
  }

  ghost predicate Queues(s: State, p: string, c: Command, s': State) {
    if p !in s.playerIndex then s' == s
    else
      var id := s.playerIndex[p];
      s' == s.(pendingInputs := s.pendingInputs[id := QueueOf(s.pendingInputs, id) + [c]])
  }

  ghost predicate Follows(r: Rules, s: State, e: Event, s': State) {
    match e
    case Spawned(p) => Arrives(s, p, s')
    case Despawned(p, scatter) => Leaves(r, s, p, scatter, s')
    case Enqueued(p, c) => Queues(s, p, c, s')
    case Stepped(result, t) => Ticked(r, s, s', result, t)
  }

  ghost predicate IsRun(r: Rules, history: seq<State>, events: seq<Event>) {
    && |history| == |events| + 1
    && (forall i :: 0 <= i < |history| ==> Sound(history[i], r.sqrt))
    && forall i :: 0 <= i < |events| ==> Follows(r, history[i], events[i], history[i + 1])
  }

  method Do(sim: Simulation, world: WorldState, op: Op) returns (ghost e: Event)
    requires sim.Valid() && world.Consistent() && world.tickRateHz >= 1
    modifies world, sim.foodHash`buckets, sim.bodies, sim.bodies.hash`buckets
    ensures world.Consistent() && OpOf(e) == op
    ensures Follows(RulesOf(world, sim.bodies.hash.cellSize), old(StateOf(world)), e, StateOf(world))
  {
    match op {
      case Spawn(p) =>
        var id := world.SpawnSnake(p);
        e := Spawned(p);
      case Despawn(p, scatter) =>
        world.DespawnSnake(p, scatter);
        e := Despawned(p, scatter);
      case Enqueue(p, c) =>
        world.EnqueueInput(p, c);
        e := Enqueued(p, c);
      case Tick =>
        var result, t := sim.Step(world);
        e := Stepped(result, t);
    }
  }

  lemma RunStarts(r: Rules, world: WorldState)
    requires world.Consistent() && r.sqrt == world.sqrt
    ensures IsRun(r, [StateOf(world)], []) && Sound(StateOf(world), r.sqrt)
  {
  }

  lemma StaysSound(world: WorldState)
    requires world.Consistent()
    ensures Sound(StateOf(world), world.sqrt)
  {
  }

  lemma RunLength(r: Rules, history: seq<State>, events: seq<Event>)
    requires IsRun(r, history, events)
    ensures |history| == |events| + 1
  {
  }

  lemma RunStep(r: Rules, history: seq<State>, events: seq<Event>, i: nat)
    requires IsRun(r, history, events) && i < |events|
    ensures |history| == |events| + 1 && Sound(history[i], r.sqrt) && Follows(r, history[i], events[i], history[i + 1])
  {
    hide Sound, Follows;
  }

  // In any run of operations the world is consistent throughout.
  method Play(sim: Simulation, world: WorldState, ops: seq<Op>) returns (ghost history: seq<State>, ghost events: seq<Event>)
    requires sim.Valid() && world.Consistent() && world.tickRateHz >= 1
    modifies world, sim.foodHash`buckets, sim.bodies, sim.bodies.hash`buckets
    ensures world.Consistent() && |events| == |ops| && forall i :: 0 <= i < |ops| ==> OpOf(events[i]) == ops[i]
    ensures IsRun(RulesOf(world, sim.bodies.hash.cellSize), history, events)
    ensures history[0] == old(StateOf(world)) && history[|ops|] == StateOf(world)
  {
    ghost var r := RulesOf(world, sim.bodies.hash.cellSize);
    RunStarts(r, world);
    hide IsRun, Sound, Follows;
    history, events := [StateOf(world)], [];
    for n := 0 to |ops|
      invariant world.Consistent() && |events| == n && forall i :: 0 <= i < n ==> OpOf(events[i]) == ops[i]
      invariant |history| == n + 1 && history[0] == old(StateOf(world)) && history[n] == StateOf(world)
      invariant IsRun(r, history, events)
    {
      ghost var e := Do(sim, world, ops[n]);
      StaysSound(world);
      RunGrows(r, history, events, e, StateOf(world));
      history, events := history + [StateOf(world)], events + [e];
    }
  }

  lemma RunGrows(r: Rules, history: seq<State>, events: seq<Event>, e: Event, s: State)
    requires IsRun(r, history, events) && |history| == |events| + 1
    requires Follows(r, history[|events|], e, s) && Sound(s, r.sqrt)
    ensures IsRun(r, history + [s], events + [e])
  {
    hide Follows, Sound;
  }

  // ---- Ids -----------------------------------------------------------------

  // Every id in use was in use before or is newly issued.
  ghost predicate IdsStep(s: State, s': State) {
    && s.nextEntityId <= s'.nextEntityId
    && (forall id :: id in s'.snakes ==> id in s.snakes || s.nextEntityId <= id)
    && (forall id :: id in s'.food ==> id in s.food || s.nextEntityId <= id)
  }

  lemma FollowsIds(r: Rules, s: State, e: Event, s': State)
    requires Sound(s, r.sqrt) && Follows(r, s, e, s')
    ensures IdsStep(s, s')
  {
    hide Linked, AllFit, Edible, Drops, SumMass;
    match e
    case Stepped(result, t) => TickIds(r, s, s', result, t);
    case _ =>
  }

  lemma TickIds(r: Rules, s: State, s': State, result: TickResult, t: Trace)
    requires Ticked(r, s, s', result, t) && FreshIds(s.snakes, s.food, s.nextEntityId)
    ensures IdsStep(s, s')
  {
    TickSnakes(r, s, s', result, t);
    TickFood(r, s, s', result, t);
    hide Ticked;
  }

  lemma TickSnakes(r: Rules, s: State, s': State, result: TickResult, t: Trace)
    requires Ticked(r, s, s', result, t)
    ensures forall id :: id in s'.snakes <==> id in s.snakes
  {
    hide Left, Living, Judged, Stocked, AllStrewn, Kept, KillsOf, SumMass;
    assert t.moved.Keys == s.snakes.Keys;
    assert t.fed.Keys == t.moved.Keys;
    assert s'.snakes.Keys == t.fed.Keys;
  }

  // A tick's food: what was left, the bodies of the dead and the new pellets.
  lemma TickFood(r: Rules, s: State, s': State, result: TickResult, t: Trace)
    requires Ticked(r, s, s', result, t) && forall id :: id in s.food ==> id < s.nextEntityId
    ensures s.nextEntityId <= After(result.deaths, t.fed, s.nextEntityId) <= s'.nextEntityId
    ensures forall id :: id in s'.food ==>
              && id < s'.nextEntityId && id in t.stocked && s'.food[id] == t.stocked[id]
              && (id in s.food || s.nextEntityId <= id)
    ensures forall id :: id in t.stocked && t.stocked[id].expiresAtTick.Some? ==>
              || (id in s.food && t.stocked[id] == s.food[id])
              || t.stocked[id].expiresAtTick.value == ExpiryAt(s.tick, r.tickRateHz)
  {
    hide AllMoved, Living, Judged, Swept, SumMass, After, ExpiryAt, Budget, Expired, Eaten, Roster, Reaches, Fit;
    assert forall id :: id in t.left ==> id in s.food && t.left[id] == s.food[id];
    NothingElseFalls(result.deaths, t.fed, s.nextEntityId, ExpiryAt(s.tick, r.tickRateHz), t.left, t.strewn);
    hide AllStrewn, VictimsIn, Left;
    NewPelletsKeep(t.strewn, t.stocked, After(result.deaths, t.fed, s.nextEntityId), result.foodSpawned,
                   r.radius, r.sqrt, r.cos, r.sin);
  }

  lemma NewPelletsKeep(food0: map<EntityId, Food>, food: map<EntityId, Food>, first: EntityId, n: nat,
                       radius: real, sqrt: real -> real, cos: real -> real, sin: real -> real)
    requires Stocked(food0, food, first, n, radius, sqrt, cos, sin)
    ensures forall id :: id in food && food[id].expiresAtTick.Some? ==> id in food0 && food[id] == food0[id]
  {
    hide Inside, IsRoot, OnCircle;
  }

  lemma {:induction false} RunIds(r: Rules, history: seq<State>, events: seq<Event>, i: nat, j: nat)
    requires IsRun(r, history, events) && i <= j < |history|
    ensures IdsStep(history[i], history[j])
  {
    hide *;
    RunLength(r, history, events);
    if i == j {
      IdsStay(history[i]);
    } else {
      RunIds(r, history, events, i, j - 1);
      RunStep(r, history, events, j - 1);
      FollowsIds(r, history[j - 1], events[j - 1], history[j]);
      IdsCompose(history[i], history[j - 1], history[j]);
    }
  }

  lemma IdsStay(s: State)
    ensures IdsStep(s, s)
  {
  }

  lemma IdsCompose(a: State, b: State, c: State)
    requires IdsStep(a, b) && IdsStep(b, c)
    ensures IdsStep(a, c)
  {
  }

  // An id is never used again: once a snake or a pellet is gone no other takes
  // its id, and no snake's id is ever a pellet's.
  lemma IdsNeverReturn(r: Rules, history: seq<State>, events: seq<Event>, i: nat, j: nat, k: nat, id: EntityId)
    requires IsRun(r, history, events) && i <= j <= k < |history|
    ensures id in history[i].snakes && id !in history[j].snakes ==> id !in history[k].snakes
    ensures id in history[i].food && id !in history[j].food ==> id !in history[k].food
    ensures id in history[i].snakes ==> id !in history[k].food
    ensures id in history[i].food ==> id !in history[k].snakes
  {
    RunIds(r, history, events, i, j);
    RunIds(r, history, events, j, k);
    RunIds(r, history, events, i, k);
    assert Sound(history[i], r.sqrt);
    hide Follows, Linked, AllFit, Edible;
  }

  // ---- Decay ---------------------------------------------------------------

  lemma FollowsDecay(r: Rules, s: State, e: Event, s': State)
    requires Sound(s, r.sqrt) && Follows(r, s, e, s') && r.tickRateHz >= 1 && NoneStale(s.food, s.tick)
    ensures NoneStale(s'.food, s'.tick)
  {
    match e
    case Stepped(result, t) =>
      TickFood(r, s, s', result, t);
      assert NoneStale(t.stocked, s.tick) by { hide Ticked, Kept, Sound; }
      SweepRenews(t.stocked, s.tick);
    case Despawned(p, scatter) =>
      if p in s.playerIndex && scatter { DropsNotStale(r, s, p, s'); }
    case _ =>
  }

  lemma DropsNotStale(r: Rules, s: State, p: string, s': State)
    requires p in s.playerIndex && Leaves(r, s, p, true, s') && r.tickRateHz >= 1 && NoneStale(s.food, s.tick)
    ensures NoneStale(s'.food, s'.tick)
  {
    var gone := s.snakes[s.playerIndex[p]];
    forall id | id in s'.food && s'.food[id].expiresAtTick.Some? ensures s'.food[id].expiresAtTick.value > LastSweep(s.tick) {
      if id !in s.food { assert IsDrop(gone, id - s.nextEntityId, ExpiryAt(s.tick, r.tickRateHz), s'.food[id]); }
    }
  }

  // Nothing dropped by a body outlives its two minutes by a sweep's period, in
  // any run from a world where nothing did.
  lemma {:induction false} RunDecays(r: Rules, history: seq<State>, events: seq<Event>, n: nat)
    requires IsRun(r, history, events) && n < |history| && r.tickRateHz >= 1 && NoneStale(history[0].food, history[0].tick)
    ensures NoneStale(history[n].food, history[n].tick)
  {
    hide *;
    RunLength(r, history, events);
    if n > 0 {
      RunDecays(r, history, events, n - 1);
      RunStep(r, history, events, n - 1);
      FollowsDecay(r, history[n - 1], events[n - 1], history[n]);
    }
  }

  // ---- Mass ----------------------------------------------------------------

  // What an operation may bring into the world: a newcomer's mass, the new
  // pellets, and the body of a snake that leaves when its body has fallen already.
  function Brought(s: State, e: Event): real {
    match e
    case Spawned(p) => if p in s.playerIndex then 0.0 else STARTING_MASS
    case Despawned(p, scatter) => if scatter && LiesDead(s, p) then s.snakes[s.playerIndex[p]].mass * 0.6 else 0.0
    case Enqueued(_, _) => 0.0
    case Stepped(result, _) => result.foodSpawned as real * FOOD_MASS_MAX
  }

  predicate LiesDead(s: State, p: string) {
    p in s.playerIndex && s.playerIndex[p] in s.snakes && !s.snakes[s.playerIndex[p]].alive
  }

  lemma FollowsMass(r: Rules, s: State, e: Event, s': State)
    requires Sound(s, r.sqrt) && Follows(r, s, e, s')
    ensures Total(s') <= Total(s) + Brought(s, e)
  {
    match e
    case Spawned(p) =>
      if p !in s.playerIndex { ArrivalBrings(r, s, p, s'); }
    case Despawned(p, scatter) =>
      if p in s.playerIndex { LeavingPays(r, s, p, scatter, s'); }
    case Stepped(result, t) =>
      TickBrings(r, s, s', result, t);
    case _ =>
  }

  lemma ArrivalBrings(r: Rules, s: State, p: string, s': State)
    requires Sound(s, r.sqrt) && p !in s.playerIndex && Arrives(s, p, s')
    ensures Total(s') == Total(s) + STARTING_MASS
  {
    hide SumMass, AllFit, Edible;
    LiveAppends(s.order, s.snakes, s.nextEntityId, s'.snakes[s.nextEntityId]);
  }

  lemma LeavingPays(r: Rules, s: State, p: string, scatter: bool, s': State)
    requires Sound(s, r.sqrt) && p in s.playerIndex && Leaves(r, s, p, scatter, s')
    ensures var gone := s.snakes[s.playerIndex[p]];
            Total(s') == Total(s) - (if gone.alive then gone.mass else 0.0) + (if scatter then gone.mass * 0.6 else 0.0)
  {
    LeavingTakes(s.order, s.snakes, s.playerIndex[p]);
    hide SumMass, LiveMass, Without, Dropping, Drops;
  }

  lemma TickBrings(r: Rules, s: State, s': State, result: TickResult, t: Trace)
    requires Sound(s, r.sqrt) && Ticked(r, s, s', result, t)
    ensures Total(s') <= Total(s) + result.foodSpawned as real * FOOD_MASS_MAX
  {
    TickCreatesNothing(r, s, s', result, t);
    VictimsWeighSomething(r, s, s', result, t);
    hide *;
  }

  lemma VictimsWeighSomething(r: Rules, s: State, s': State, result: TickResult, t: Trace)
    requires Ticked(r, s, s', result, t)
    ensures VictimsIn(result.deaths, t.fed) && Lost(result.deaths, t.fed) >= 0.0
  {
    assert forall id :: id in t.fed ==> Fit(t.fed[id], r.sqrt);
    hide Ticked;
    LostNotNegative(result.deaths, t.fed);
  }

  lemma {:induction false} LostNotNegative(deaths: seq<Death>, snakes: map<EntityId, Snake>)
    requires VictimsIn(deaths, snakes) && forall id :: id in snakes ==> snakes[id].mass >= 0.0
    ensures Lost(deaths, snakes) >= 0.0
  {
    if deaths != [] { LostNotNegative(deaths[..|deaths| - 1], snakes); }
  }

  // Once its body has fallen, a snake that leaves with its mass scattered adds to
  // the world's mass; no other departure does.
  lemma LeavingIsLossyIff(r: Rules, s: State, p: string, scatter: bool, s': State)
    requires Sound(s, r.sqrt) && p in s.playerIndex && Leaves(r, s, p, scatter, s')
    ensures Total(s') <= Total(s) <==> !(scatter && LiesDead(s, p))
  {
    LeavingPays(r, s, p, scatter, s');
    assert Fit(s.snakes[s.playerIndex[p]], r.sqrt);
    hide Total, Leaves;
  }

  function Supply(history: seq<State>, events: seq<Event>, n: nat): real
    requires n <= |events| <= |history|
  {
    if n == 0 then 0.0 else Supply(history, events, n - 1) + Brought(history[n - 1], events[n - 1])
  }

  // Over any run mass comes from nowhere else.
  lemma {:induction false} RunMass(r: Rules, history: seq<State>, events: seq<Event>, n: nat)
    requires IsRun(r, history, events) && n <= |events|
    ensures Total(history[n]) <= Total(history[0]) + Supply(history, events, n)
  {
    hide *;
    RunLength(r, history, events);
    SupplyNext(history, events, n);
    if n > 0 {
      RunMass(r, history, events, n - 1);
      RunStep(r, history, events, n - 1);
      FollowsMass(r, history[n - 1], events[n - 1], history[n]);
    }
  }

  lemma SupplyNext(history: seq<State>, events: seq<Event>, n: nat)
    requires n <= |events| <= |history|
    ensures Supply(history, events, n) ==
              if n == 0 then 0.0 else Supply(history, events, n - 1) + Brought(history[n - 1], events[n - 1])
  {
  }

  // ---- Bodies --------------------------------------------------------------

  // The i-th body lies whole, from the first id it was given.
  ghost predicate BodyLies(deaths: seq<Death>, snakes: map<EntityId, Snake>, i: nat, first: EntityId, expiry: int,
                           food: map<EntityId, Food>) {
    VictimsIn(deaths, snakes) && i < |deaths| &&
    Strewn(snakes[deaths[i].victim], After(deaths[..i], snakes, first), expiry, food)
  }

  lemma TickFoodParts(r: Rules, s: State, s': State, result: TickResult, t: Trace)
    requires Ticked(r, s, s', result, t)
    ensures VictimsIn(result.deaths, t.fed) && ExpiryAt(s.tick, r.tickRateHz) > s.tick
    ensures AllStrewn(result.deaths, t.fed, s.nextEntityId, ExpiryAt(s.tick, r.tickRateHz), t.left, t.strewn)
    ensures Stocked(t.strewn, t.stocked, After(result.deaths, t.fed, s.nextEntityId), result.foodSpawned,
                    r.radius, r.sqrt, r.cos, r.sin)
    ensures s'.food == Kept(t.stocked, s.tick) && result.foodSpawned == Budget(r.targetFood, |t.strewn|)
  {
    hide Stocked, AllStrewn, VictimsIn, Judged, Swept, Living, Grazed, AllMoved, Kept, Budget, After, SumMass, AllFit, Edible;
  }

  // Every body that falls in a tick is still there whole when the tick ends.
  lemma BodiesLieWhole(r: Rules, s: State, s': State, result: TickResult, t: Trace, i: nat)
    requires Ticked(r, s, s', result, t) && i < |result.deaths|
    ensures BodyLies(result.deaths, t.fed, i, s.nextEntityId, ExpiryAt(s.tick, r.tickRateHz), s'.food)
  {
    hide *;
    TickFoodParts(r, s, s', result, t);
    var expiry := ExpiryAt(s.tick, r.tickRateHz);
    BodyFalls(result.deaths, t.fed, i, s.nextEntityId, expiry, t.left, t.strewn);
    StockingSpares(t.strewn, t.stocked, After(result.deaths, t.fed, s.nextEntityId), result.foodSpawned,
                   r.radius, r.sqrt, r.cos, r.sin);
    BodyStays(result.deaths, t.fed, i, s.nextEntityId, expiry, t.strewn, t.stocked, s.tick);
  }

  lemma BodyFalls(deaths: seq<Death>, snakes: map<EntityId, Snake>, i: nat, first: EntityId, expiry: int,
                  food0: map<EntityId, Food>, food: map<EntityId, Food>)
    requires VictimsIn(deaths, snakes) && i < |deaths| && AllStrewn(deaths, snakes, first, expiry, food0, food)
    ensures BodyLies(deaths, snakes, i, first, expiry, food)
  {
    hide AllStrewn, Strewn, After;
    EachBodyFalls(deaths, snakes, first, expiry, food0, food, i);
  }

  lemma StockingSpares(food0: map<EntityId, Food>, food: map<EntityId, Food>, first: EntityId, n: nat,
                       radius: real, sqrt: real -> real, cos: real -> real, sin: real -> real)
    requires Stocked(food0, food, first, n, radius, sqrt, cos, sin)
    ensures forall id :: id in food0 ==> id in food && food[id] == food0[id]
  {
    hide Ordinary;
  }

  lemma BodyStays(deaths: seq<Death>, snakes: map<EntityId, Snake>, i: nat, first: EntityId, expiry: int,
                  strewn: map<EntityId, Food>, stocked: map<EntityId, Food>, tick: int)
    requires BodyLies(deaths, snakes, i, first, expiry, strewn) && expiry > tick
    requires forall id :: id in strewn ==> id in stocked && stocked[id] == strewn[id]
    ensures BodyLies(deaths, snakes, i, first, expiry, Kept(stocked, tick))
  {
    var s, from := snakes[deaths[i].victim], After(deaths[..i], snakes, first);
    assert Strewn(s, from, expiry, strewn);
    hide After, Drops, BodyLies, VictimsIn;
    forall id | from <= id < from + Drops(s.mass)
      ensures id in Kept(stocked, tick) && IsDrop(s, id - from, expiry, Kept(stocked, tick)[id])
    {
      assert IsDrop(s, id - from, expiry, strewn[id]);
    }
  }
}
