// The eating pass through the grid, proved against the grid-free account of it.
module Eating {
  import opened Feeding
  import opened Geometry
  import opened Options
  import opened Snakes
  import opened World
  import SpatialHash

  // The grid holds each pellet once, under the cell of its position, and nothing else.
  ghost predicate Filed(buckets: map<int, seq<EntityId>>, cellSize: real, food: map<EntityId, Food>)
    requires cellSize > 0.0
  {
    forall k, id :: SpatialHash.Bag(buckets, k)[id] == if id in food && KeyOf(food[id], cellSize) == k then 1 else 0
  }

  function KeyOf(f: Food, cellSize: real): int
    requires cellSize > 0.0
  {
    SpatialHash.KeyAt(f.x, f.y, cellSize)
  }

  ghost predicate Indexes(hash: SpatialHash.Hash, food: map<EntityId, Food>)
    reads hash
  {
    hash.Valid() && Filed(hash.buckets, hash.cellSize, food)
  }

  lemma FileOne(before: map<int, seq<EntityId>>, after: map<int, seq<EntityId>>, cellSize: real,
                food: map<EntityId, Food>, id: EntityId, f: Food)
    requires cellSize > 0.0 && Filed(before, cellSize, food) && id !in food
    requires SpatialHash.Added(before, after, KeyOf(f, cellSize), id)
    ensures Filed(after, cellSize, food[id := f])
  {
    hide SpatialHash.Bag, SpatialHash.KeyAt;
  }

  lemma UnfileOne(before: map<int, seq<EntityId>>, after: map<int, seq<EntityId>>, cellSize: real,
                  food: map<EntityId, Food>, id: EntityId)
    requires cellSize > 0.0 && Filed(before, cellSize, food) && id in food
    requires SpatialHash.Dropped(before, after, KeyOf(food[id], cellSize), id)
    ensures Filed(after, cellSize, food - {id})
  {
    hide SpatialHash.Bag, SpatialHash.KeyAt;
  }

  // The pellets are indexed in whatever order the map yields them.
  method RebuildFoodHash(world: WorldState, foodHash: SpatialHash.Hash)
    requires foodHash.cellSize > 0.0
    modifies foodHash`buckets
    ensures Indexes(foodHash, world.food)
  {
    hide Filed, SpatialHash.Bag, SpatialHash.KeyAt, SpatialHash.Added;
    foodHash.Clear();
    NothingFiled(foodHash.cellSize);
    var todo := world.food.Keys;
    ghost var done: map<EntityId, Food> := map[];
    while todo != {}
      invariant todo <= world.food.Keys && done == world.food - todo
      invariant Indexes(foodHash, done)
      decreases |todo|
    {
      ghost var some := Pick(todo);
      ghost var before := foodHash.buckets;
      var id: EntityId :| id in todo;
      foodHash.Insert(id, world.food[id].x, world.food[id].y);
      FileOne(before, foodHash.buckets, foodHash.cellSize, done, id, world.food[id]);
      todo := todo - {id};
      done := done[id := world.food[id]];
    }
    assert done == world.food;
  }

  lemma NothingFiled(cellSize: real)
    requires cellSize > 0.0
    ensures Filed(map[], cellSize, map[])
  {
  }

  // Everything in reach is a candidate.
  lemma ReachedIsCandidate(buckets: map<int, seq<EntityId>>, cellSize: real, s: Snake, food: map<EntityId, Food>, id: EntityId)
    requires cellSize > 0.0 && Filed(buckets, cellSize, food) && |s.spine| >= 1
    requires id in food && Reaches(s, food[id])
    ensures var head, reach := Head(s), s.radius + MOUTH;
            SpatialHash.InBlock(buckets, id,
              SpatialHash.CellOf(head.x - reach, cellSize), SpatialHash.CellOf(head.x + reach, cellSize) + 1,
              SpatialHash.CellOf(head.y - reach, cellSize), SpatialHash.CellOf(head.y + reach, cellSize) + 1)
  {
    hide SpatialHash.CellOf, SpatialHash.CellKey, SpatialHash.InBlock, Within;
    var p := Point(food[id].x, food[id].y);
    var reach := s.radius + MOUTH;
    assert SpatialHash.Bag(buckets, KeyOf(food[id], cellSize))[id] == 1;
    SpatialHash.ReachedIsVisited(p, Head(s), reach, reach, cellSize);
    SpatialHash.VisitedIsCandidate(buckets, id, p, Head(s), reach, cellSize);
  }

  // A pellet in reach leaves the map and the grid, and the snake gains its mass.
  method Bite(world: WorldState, foodHash: SpatialHash.Hash, id: EntityId, foodId: EntityId, sqrt: real -> real)
    requires id in world.snakes && Fit(world.snakes[id], sqrt) && foodId in world.food && world.food[foodId].mass >= 0.0
    requires Indexes(foodHash, world.food)
    modifies world`snakes, world`food, foodHash`buckets
    ensures Indexes(foodHash, world.food) && world.food == old(world.food) - {foodId}
    ensures world.snakes == old(world.snakes)[id := Fed(old(world.snakes[id]), old(world.food[foodId].mass), sqrt)]
    ensures Fit(world.snakes[id], sqrt)
  {
    hide Filed, SpatialHash.Bag, SpatialHash.KeyAt, SpatialHash.Dropped;
    var food := world.food[foodId];
    ghost var was, buckets := world.food, foodHash.buckets;
    SetMassFits(world.snakes[id], world.snakes[id].mass + food.mass, sqrt);
    world.snakes := world.snakes[id := SetMass(world.snakes[id], world.snakes[id].mass + food.mass, sqrt)];
    world.food := world.food - {foodId};
    foodHash.Remove(foodId, food.x, food.y);
    UnfileOne(buckets, foodHash.buckets, foodHash.cellSize, was, foodId);
  }

  function Only(food: map<EntityId, Food>, ids: set<EntityId>): map<EntityId, Food> {
    map id | id in ids && id in food :: food[id]
  }

  ghost function Reached(s: Snake, food: map<EntityId, Food>): set<EntityId>
    requires |s.spine| >= 1
  {
    set id | id in food && Reaches(s, food[id])
  }

  lemma SumGrows(food: map<EntityId, Food>, ids: set<EntityId>, id: EntityId)
    requires id in food && id !in ids
    ensures SumMass(Only(food, ids + {id})) == SumMass(Only(food, ids)) + food[id].mass
  {
    SumAny(Only(food, ids + {id}), id);
    assert Only(food, ids + {id}) - {id} == Only(food, ids);
  }

  // The pellets eaten once this prefix of the candidates is tried.
  ghost function Bitten(s: Snake, food: map<EntityId, Food>, tried: seq<EntityId>): (ids: set<EntityId>)
    requires |s.spine| >= 1
    ensures ids <= food.Keys
  {
    set id | id in food && id in tried && Reaches(s, food[id])
  }

  lemma BittenNext(s: Snake, food: map<EntityId, Food>, tried: seq<EntityId>, c: EntityId)
    requires |s.spine| >= 1
    ensures c in food - Bitten(s, food, tried) && Reaches(s, food[c]) ==>
              Bitten(s, food, tried + [c]) == Bitten(s, food, tried) + {c}
    ensures !(c in food - Bitten(s, food, tried) && Reaches(s, food[c])) ==>
              Bitten(s, food, tried + [c]) == Bitten(s, food, tried)
  {
    hide Reaches;
  }

  // One snake's turn: the order and repetition of the candidates do not show.
  method Graze(world: WorldState, foodHash: SpatialHash.Hash, id: EntityId, sqrt: real -> real) returns (consumed: nat)
    requires id in world.snakes && Fit(world.snakes[id], sqrt) && world.snakes[id].alive
    requires Edible(world.food) && Indexes(foodHash, world.food)
    modifies world`snakes, world`food, foodHash`buckets
    ensures Indexes(foodHash, world.food)
    ensures world.food == old(world.food) - Reached(old(world.snakes[id]), old(world.food))
    ensures world.snakes == old(world.snakes)[id := Fed(old(world.snakes[id]),
              SumMass(Only(old(world.food), Reached(old(world.snakes[id]), old(world.food)))), sqrt)]
    ensures consumed == |Reached(old(world.snakes[id]), old(world.food))| && Fit(world.snakes[id], sqrt)
  {
    hide Filed, SpatialHash.InBlock, SpatialHash.CellOf, RadiusForMass, ScoreForMass, LengthForMass, SumMass, Bitten, Within;
    consumed := 0;
    ghost var food0, snakes0, s := world.food, world.snakes, world.snakes[id];
    var head := Head(world.snakes[id]);
    var reach := world.snakes[id].radius + MOUTH;
    var candidates := foodHash.QueryCircle(head.x, head.y, reach);
    forall f | f in Reached(s, food0) ensures f in candidates {
      ReachedIsCandidate(foodHash.buckets, foodHash.cellSize, s, food0, f);
    }
    ghost var eaten := Bitten(s, food0, []);
    NothingBitten(s, food0, eaten);
    var i := 0;
    while i < |candidates|
      invariant 0 <= i <= |candidates|
      invariant eaten == Bitten(s, food0, candidates[..i])
      invariant world.food == food0 - eaten && consumed == |eaten|
      invariant Fit(Fed(s, SumMass(Only(food0, eaten)), sqrt), sqrt)
      invariant world.snakes == snakes0[id := Fed(s, SumMass(Only(food0, eaten)), sqrt)]
      invariant Indexes(foodHash, world.food)
    {
      var foodId := candidates[i];
      assert candidates[..i + 1] == candidates[..i] + [foodId];
      BittenNext(s, food0, candidates[..i], foodId);
      if foodId in world.food {
        var food := world.food[foodId];
        if Within(Point(food.x, food.y), head, reach) {
          SumGrows(food0, eaten, foodId);
          Bite(world, foodHash, id, foodId, sqrt);
          consumed := consumed + 1;
          eaten := eaten + {foodId};
        }
      }
      i := i + 1;
    }
    assert candidates[..i] == candidates;
    AllBitten(s, food0, candidates);
  }

  lemma NothingBitten(s: Snake, food: map<EntityId, Food>, eaten: set<EntityId>)
    requires |s.spine| >= 1 && eaten == Bitten(s, food, [])
    ensures eaten == {} && SumMass(Only(food, eaten)) == 0.0 && food - eaten == food
  {
    assert Only(food, eaten).Keys == {};
  }

  lemma AllBitten(s: Snake, food: map<EntityId, Food>, candidates: seq<EntityId>)
    requires |s.spine| >= 1 && forall f :: f in Reached(s, food) ==> f in candidates
    ensures Bitten(s, food, candidates) == Reached(s, food)
  {
    forall f: EntityId ensures f in Bitten(s, food, candidates) <==> f in Reached(s, food) {}
  }

  // The whole pass gives each pellet to its first living reacher.
  method ConsumeFood(world: WorldState, foodHash: SpatialHash.Hash) returns (consumed: nat)
    requires world.Consistent() && Indexes(foodHash, world.food)
    modifies world`snakes, world`food, foodHash`buckets
    ensures world.Consistent() && Indexes(foodHash, world.food)
    ensures world.food == Left(world.order, old(world.snakes), old(world.food), |world.order|)
    ensures Eaten(world.order, old(world.snakes), world.snakes, old(world.food), |world.order|, world.sqrt)
    ensures consumed == |old(world.food)| - |world.food|
    ensures BodyMass(world.order, world.snakes, |world.order|) + SumMass(world.food) ==
              BodyMass(world.order, old(world.snakes), |world.order|) + SumMass(old(world.food))
  {
    consumed := 0;
    var order := world.order;
    ghost var food0, snakes0, sqrt := world.food, world.snakes, world.sqrt;
    AllLeft(order, snakes0, food0, sqrt);
    assert Roster(order, snakes0) && AllFit(snakes0, sqrt) && Edible(food0);
    hide *;
    for n := 0 to |order|
      invariant Roster(order, world.snakes) && AllFit(world.snakes, sqrt) && Indexes(foodHash, world.food)
      invariant world.food == Left(order, snakes0, food0, n)
      invariant Eaten(order, snakes0, world.snakes, food0, n, sqrt)
      invariant consumed == |food0| - |world.food|
    {
      TurnFacts(order, snakes0, world.snakes, food0, n, sqrt);
      if world.snakes[order[n]].alive {
        var bites := Graze(world, foodHash, order[n], world.sqrt);
        consumed := consumed + bites;
      }
    }
    EatingConserves(order, snakes0, world.snakes, food0, |order|, sqrt);
    StillConsistent(world, snakes0, food0);
  }

  lemma StillConsistent(world: WorldState, snakes: map<EntityId, Snake>, food: map<EntityId, Food>)
    requires Linked(world.order, snakes, world.playerIndex, world.pendingInputs) && AllFit(world.snakes, world.sqrt)
    requires Edible(food) && FreshIds(snakes, food, world.nextEntityId) && Roster(world.order, world.snakes)
    requires Eaten(world.order, snakes, world.snakes, food, |world.order|, world.sqrt)
    requires world.food == Left(world.order, snakes, food, |world.order|)
    ensures world.Consistent()
  {
    hide SumMass, Share, Fit;
    forall id | id in snakes ensures id in world.snakes && world.snakes[id].playerId == snakes[id].playerId {
      assert id in world.order;
      var i :| 0 <= i < |world.order| && world.order[i] == id;
    }
  }

  lemma TurnFacts(order: seq<EntityId>, before: map<EntityId, Snake>, after: map<EntityId, Snake>,
                  food: map<EntityId, Food>, n: nat, sqrt: real -> real)
    requires Roster(order, before) && n < |order| && AllFit(before, sqrt) && Edible(food)
    requires Roster(order, after) && AllFit(after, sqrt) && Eaten(order, before, after, food, n, sqrt)
    ensures order[n] in before && order[n] in after && after[order[n]] == before[order[n]] && |after[order[n]].spine| >= 1
    ensures var s, left, share := before[order[n]], Left(order, before, food, n), Share(order, before, food, n);
            && Edible(left) && Fit(s, sqrt)
            && (s.alive ==> Reached(s, left) == share.Keys && Only(left, Reached(s, left)) == share)
            && Left(order, before, food, n + 1) == left - share.Keys
            && |left| == |Left(order, before, food, n + 1)| + |share.Keys|
            && var next := after[order[n] := Fed(s, SumMass(share), sqrt)];
            && Roster(order, next) && AllFit(next, sqrt) && Eaten(order, before, next, food, n + 1, sqrt)
            && (!s.alive ==> share.Keys == {} && left - share.Keys == left && Eaten(order, before, after, food, n + 1, sqrt))
  {
    hide Reaches, Fed, Share, Fit, SumMass;
    Turn(order, before, food, n);
    PassAdvances(order, before, after, food, n, sqrt);
    if !before[order[n]].alive { DeadTurn(order, before, food, n, sqrt); }
  }

  lemma PassAdvances(order: seq<EntityId>, before: map<EntityId, Snake>, after: map<EntityId, Snake>,
                     food: map<EntityId, Food>, n: nat, sqrt: real -> real)
    requires Roster(order, before) && n < |order| && AllFit(before, sqrt) && Edible(food)
    requires Roster(order, after) && AllFit(after, sqrt) && Eaten(order, before, after, food, n, sqrt)
    ensures order[n] in before
    ensures var next := after[order[n] := Fed(before[order[n]], SumMass(Share(order, before, food, n)), sqrt)];
            Roster(order, next) && AllFit(next, sqrt) && Eaten(order, before, next, food, n + 1, sqrt)
  {
    var share := Share(order, before, food, n);
    SumNotNegative(share);
    var fed := Fed(before[order[n]], SumMass(share), sqrt);
    FedFits(before[order[n]], SumMass(share), sqrt);
    assert Entered(fed, order[n]);
    hide Share, SumMass, Fit, Fed, Entered;
    NextEaten(order, before, after, food, n, sqrt);
    NextRoster(order, after, n, fed, sqrt);
  }

  lemma NextRoster(order: seq<EntityId>, after: map<EntityId, Snake>, n: nat, fed: Snake, sqrt: real -> real)
    requires Roster(order, after) && AllFit(after, sqrt) && n < |order| && Fit(fed, sqrt) && Entered(fed, order[n])
    ensures Roster(order, after[order[n] := fed]) && AllFit(after[order[n] := fed], sqrt)
  {
    hide Fit, Entered;
  }

  lemma NextEaten(order: seq<EntityId>, before: map<EntityId, Snake>, after: map<EntityId, Snake>,
                  food: map<EntityId, Food>, n: nat, sqrt: real -> real)
    requires Roster(order, before) && n < |order| && Eaten(order, before, after, food, n, sqrt)
    ensures order[n] in before
    ensures Eaten(order, before, after[order[n] := Fed(before[order[n]], SumMass(Share(order, before, food, n)), sqrt)],
                  food, n + 1, sqrt)
  {
    hide Share, SumMass, Fed, Entered;
  }

  lemma FedFits(s: Snake, gained: real, sqrt: real -> real)
    requires Fit(s, sqrt) && gained >= 0.0
    ensures Fit(Fed(s, gained, sqrt), sqrt)
  {
    LengthMonotone(s.mass, s.mass + gained);
  }

  lemma AllLeft(order: seq<EntityId>, snakes: map<EntityId, Snake>, food: map<EntityId, Food>, sqrt: real -> real)
    requires Roster(order, snakes)
    ensures Left(order, snakes, food, 0) == food && Eaten(order, snakes, snakes, food, 0, sqrt)
  {
  }

  // What a turn takes is that snake's share of all the pellets.
  lemma Turn(order: seq<EntityId>, snakes: map<EntityId, Snake>, food: map<EntityId, Food>, n: nat)
    requires Roster(order, snakes) && n < |order|
    ensures var s, left := snakes[order[n]], Left(order, snakes, food, n);
            var share := Share(order, snakes, food, n);
            && (s.alive ==> Reached(s, left) == share.Keys && Only(left, Reached(s, left)) == share)
            && Left(order, snakes, food, n + 1) == left - share.Keys
            && |left| == |Left(order, snakes, food, n + 1)| + |share|
  {
    hide Reaches, SumMass;
    var left, share := Left(order, snakes, food, n), Share(order, snakes, food, n);
    LeftSplits(order, snakes, food, n);
    CountLeft(left, share);
  }

  lemma CountLeft(left: map<EntityId, Food>, share: map<EntityId, Food>)
    requires share.Keys <= left.Keys
    ensures |left| == |left - share.Keys| + |share|
  {
    assert (left - share.Keys).Keys == left.Keys - share.Keys;
    assert |left.Keys| == |left.Keys - share.Keys| + |share.Keys|;
  }

  lemma DeadTurn(order: seq<EntityId>, snakes: map<EntityId, Snake>, food: map<EntityId, Food>, n: nat, sqrt: real -> real)
    requires Roster(order, snakes) && n < |order| && AllFit(snakes, sqrt) && !snakes[order[n]].alive
    ensures var s, share := snakes[order[n]], Share(order, snakes, food, n);
            share == map[] && Fed(s, SumMass(share), sqrt) == s
  {
    assert Fit(snakes[order[n]], sqrt);
    var share := Share(order, snakes, food, n);
    forall id: EntityId ensures id !in share.Keys {}
  }
}
