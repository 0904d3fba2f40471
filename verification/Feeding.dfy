// Who eats which pellet, stated without the grid, and what eating conserves.
module Feeding {
  import opened Geometry
  import opened Options
  import opened Snakes

  const MOUTH: real := 14.0

  predicate Reaches(s: Snake, f: Food)
    requires |s.spine| >= 1
  {
    s.alive && Within(Point(f.x, f.y), Head(s), s.radius + MOUTH)
  }

  // The pellets that none of the first n snakes reaches.
  ghost function Left(order: seq<EntityId>, snakes: map<EntityId, Snake>, food: map<EntityId, Food>, n: nat): map<EntityId, Food>
    requires Roster(order, snakes) && n <= |order|
  {
    map id | id in food && (forall j :: 0 <= j < n ==> !Reaches(snakes[order[j]], food[id])) :: food[id]
  }

  // The pellets whose first living reacher is snake n.
  ghost function Share(order: seq<EntityId>, snakes: map<EntityId, Snake>, food: map<EntityId, Food>, n: nat): map<EntityId, Food>
    requires Roster(order, snakes) && n < |order|
  {
    map id | id in Left(order, snakes, food, n) && Reaches(snakes[order[n]], food[id]) :: food[id]
  }

  ghost function SumMass(food: map<EntityId, Food>): real {
    if food.Keys == {} then 0.0
    else
      var id := Pick(food.Keys);
      food[id].mass + SumMass(food - {id})
  }

  // Growth without loss of length.
  function Fed(s: Snake, gained: real, sqrt: real -> real): Snake {
    s.(mass := s.mass + gained, radius := RadiusForMass(s.mass + gained, sqrt), score := ScoreForMass(s.mass + gained))
  }

  ghost predicate Edible(food: map<EntityId, Food>) {
    forall id :: id in food ==> food[id].mass >= 0.0
  }

  ghost predicate AllFit(snakes: map<EntityId, Snake>, sqrt: real -> real) {
    forall id :: id in snakes ==> Fit(snakes[id], sqrt)
  }

  lemma {:induction false} SumAny(food: map<EntityId, Food>, id: EntityId)
    requires id in food
    ensures SumMass(food) == food[id].mass + SumMass(food - {id})
    decreases |food|
  {
    var first := Pick(food.Keys);
    if first != id {
      SumAny(food - {first}, id);
      assert food - {first} - {id} == food - {id} - {first};
      SumAny(food - {id}, first);
    }
  }

  lemma {:induction false} SumSplits(food: map<EntityId, Food>, part: set<EntityId>)
    requires part <= food.Keys
    ensures SumMass(food) == SumMass(food - part) + SumMass(map id | id in part :: food[id])
  {
    var kept := map id | id in part :: food[id];
    if part == {} {
      assert food - part == food && kept == map[];
    } else {
      var id := Pick(part);
      var rest := part - {id};
      SumSplits(food, rest);
      SumAny(food - rest, id);
      SumAny(kept, id);
      assert food - rest - {id} == food - part;
      assert kept - {id} == map i | i in rest :: food[i];
    }
  }

  lemma {:induction false} SumNotNegative(food: map<EntityId, Food>)
    requires Edible(food)
    ensures SumMass(food) >= 0.0
    decreases |food|
  {
    if food.Keys != {} {
      var id := Pick(food.Keys);
      SumAny(food, id);
      SumNotNegative(food - {id});
    }
  }

  // Every pellet is someone's share or left over, never both.
  lemma SharesPartition(order: seq<EntityId>, snakes: map<EntityId, Snake>, food: map<EntityId, Food>, id: EntityId)
    requires Roster(order, snakes) && id in food
    ensures id in Left(order, snakes, food, |order|) <==> forall n :: 0 <= n < |order| ==> id !in Share(order, snakes, food, n)
    ensures forall m, n :: 0 <= m < n < |order| && id in Share(order, snakes, food, m) ==> id !in Share(order, snakes, food, n)
  {
    if id !in Left(order, snakes, food, |order|) {
      var n := FirstReacher(order, snakes, food[id], 0);
      assert id in Share(order, snakes, food, n);
    }
  }

  lemma FirstReacher(order: seq<EntityId>, snakes: map<EntityId, Snake>, f: Food, from: nat) returns (n: nat)
    requires Roster(order, snakes) && from <= |order|
    requires forall j :: 0 <= j < from ==> !Reaches(snakes[order[j]], f)
    requires exists j :: 0 <= j < |order| && Reaches(snakes[order[j]], f)
    ensures n < |order| && Reaches(snakes[order[n]], f) && forall j :: 0 <= j < n ==> !Reaches(snakes[order[j]], f)
    decreases |order| - from
  {
    if Reaches(snakes[order[from]], f) { n := from; } else { n := FirstReacher(order, snakes, f, from + 1); }
  }

  ghost function BodyMass(order: seq<EntityId>, snakes: map<EntityId, Snake>, n: nat): real
    requires Roster(order, snakes) && n <= |order|
  {
    if n == 0 then 0.0 else BodyMass(order, snakes, n - 1) + snakes[order[n - 1]].mass
  }

  // What a whole eating pass leaves of the world.
  ghost predicate Eaten(order: seq<EntityId>, before: map<EntityId, Snake>, after: map<EntityId, Snake>,
                        food: map<EntityId, Food>, n: nat, sqrt: real -> real)
    requires Roster(order, before) && n <= |order|
  {
    && after.Keys == before.Keys
    && (forall j :: 0 <= j < n ==> after[order[j]] == Fed(before[order[j]], SumMass(Share(order, before, food, j)), sqrt))
    && (forall j :: n <= j < |order| ==> after[order[j]] == before[order[j]])
  }

  lemma LeftSplits(order: seq<EntityId>, snakes: map<EntityId, Snake>, food: map<EntityId, Food>, n: nat)
    requires Roster(order, snakes) && n < |order|
    ensures Left(order, snakes, food, n + 1) == Left(order, snakes, food, n) - Share(order, snakes, food, n).Keys
    ensures SumMass(Left(order, snakes, food, n)) ==
              SumMass(Left(order, snakes, food, n + 1)) + SumMass(Share(order, snakes, food, n))
  {
    var left, share := Left(order, snakes, food, n), Share(order, snakes, food, n);
    SumSplits(left, share.Keys);
    assert share == map id | id in share.Keys :: left[id];
    assert Left(order, snakes, food, n + 1) == left - share.Keys;
  }

  // Eating moves mass from pellets to snakes and loses none.
  lemma {:induction false} EatingConserves(order: seq<EntityId>, before: map<EntityId, Snake>, after: map<EntityId, Snake>,
                                           food: map<EntityId, Food>, n: nat, sqrt: real -> real)
    requires Roster(order, before) && Roster(order, after) && n <= |order|
    requires Eaten(order, before, after, food, |order|, sqrt)
    ensures BodyMass(order, after, n) + SumMass(Left(order, before, food, n)) ==
              BodyMass(order, before, n) + SumMass(food)
    decreases n
  {
    hide *;
    if n == 0 {
      NothingEaten(order, before, after, food);
    } else {
      EatingConserves(order, before, after, food, n - 1, sqrt);
      BiteConserves(order, before, after, food, n - 1, sqrt);
    }
  }

  lemma NothingEaten(order: seq<EntityId>, before: map<EntityId, Snake>, after: map<EntityId, Snake>, food: map<EntityId, Food>)
    requires Roster(order, before) && Roster(order, after)
    ensures SumMass(Left(order, before, food, 0)) == SumMass(food)
    ensures BodyMass(order, before, 0) == BodyMass(order, after, 0) == 0.0
  {
    assert Left(order, before, food, 0) == food;
  }

  lemma BiteConserves(order: seq<EntityId>, before: map<EntityId, Snake>, after: map<EntityId, Snake>,
                      food: map<EntityId, Food>, n: nat, sqrt: real -> real)
    requires Roster(order, before) && Roster(order, after) && n < |order|
    requires Eaten(order, before, after, food, |order|, sqrt)
    ensures BodyMass(order, after, n + 1) - BodyMass(order, after, n) + SumMass(Left(order, before, food, n + 1)) ==
              BodyMass(order, before, n + 1) - BodyMass(order, before, n) + SumMass(Left(order, before, food, n))
  {
    hide Left, Share, SumMass, Eaten, Roster, Fed;
    LeftSplits(order, before, food, n);
    GainIsShare(order, before, after, food, n, sqrt);
  }

  lemma GainIsShare(order: seq<EntityId>, before: map<EntityId, Snake>, after: map<EntityId, Snake>,
                    food: map<EntityId, Food>, n: nat, sqrt: real -> real)
    requires Roster(order, before) && n < |order| && Eaten(order, before, after, food, |order|, sqrt)
    ensures order[n] in before && order[n] in after
    ensures after[order[n]].mass == before[order[n]].mass + SumMass(Share(order, before, food, n))
  {
  }
}
