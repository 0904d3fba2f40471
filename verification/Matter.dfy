// Where mass comes from and where it goes.
module Matter {
  import opened Collisions
  import opened Feeding
  import opened FoodSupply
  import opened Geometry
  import opened Inputs
  import opened Movement
  import opened Scattering
  import opened Snakes
  import opened Timestep
  import opened World

  function Weight(snakes: map<EntityId, Snake>, id: EntityId): real {
    if id in snakes && snakes[id].alive then snakes[id].mass else 0.0
  }

  // The mass of the living among the first n.
  function LiveMass(order: seq<EntityId>, snakes: map<EntityId, Snake>, n: nat): real
    requires n <= |order|
  {
    if n == 0 then 0.0 else LiveMass(order, snakes, n - 1) + Weight(snakes, order[n - 1])
  }

  // What is there to be eaten or killed for.
  ghost function Total(s: State): real {
    LiveMass(s.order, s.snakes, |s.order|) + SumMass(s.food)
  }

  lemma {:induction false} LiveBelow(order: seq<EntityId>, a: map<EntityId, Snake>, b: map<EntityId, Snake>, n: nat)
    requires n <= |order| && forall i :: 0 <= i < |order| ==> Weight(a, order[i]) <= Weight(b, order[i])
    ensures LiveMass(order, a, n) <= LiveMass(order, b, n)
  {
    if n > 0 { LiveBelow(order, a, b, n - 1); }
  }

  // ---- Moving --------------------------------------------------------------

  // Steering weighs nothing and moving at most burns mass.
  lemma MovingLightens(order: seq<EntityId>, snakes: map<EntityId, Snake>, pending: map<EntityId, seq<Command>>, dt: real,
                       sqrt: real -> real, cos: real -> real, sin: real -> real)
    requires AllFit(snakes, sqrt)
    ensures LiveMass(order, AllMoved(Steered(snakes, pending, pending.Keys), dt, sqrt, cos, sin), |order|) <=
              LiveMass(order, snakes, |order|)
  {
    var moved := AllMoved(Steered(snakes, pending, pending.Keys), dt, sqrt, cos, sin);
    forall i | 0 <= i < |order| ensures Weight(moved, order[i]) <= Weight(snakes, order[i]) {
      MovedWeight(snakes, pending, order[i], dt, sqrt, cos, sin);
    }
    LiveBelow(order, moved, snakes, |order|);
  }

  lemma MovedWeight(snakes: map<EntityId, Snake>, pending: map<EntityId, seq<Command>>, id: EntityId, dt: real,
                    sqrt: real -> real, cos: real -> real, sin: real -> real)
    requires AllFit(snakes, sqrt)
    ensures Weight(AllMoved(Steered(snakes, pending, pending.Keys), dt, sqrt, cos, sin), id) <= Weight(snakes, id)
  {
    if id in snakes {
      var s := Steered(snakes, pending, pending.Keys)[id];
      if id in pending { DrainKeepsBody(snakes[id], pending[id]); }
      assert s.mass == snakes[id].mass && s.alive == snakes[id].alive && Fit(s, sqrt) by { hide Drained; }
      MovedKeeps(s, dt, sqrt, cos, sin);
      hide Moved, Fit, Steered;
    }
  }

  // ---- Eating --------------------------------------------------------------

  lemma {:induction false} EatingKeepsTotal(order: seq<EntityId>, before: map<EntityId, Snake>, after: map<EntityId, Snake>,
                                            food: map<EntityId, Food>, n: nat, sqrt: real -> real)
    requires Roster(order, before) && n <= |order| && Eaten(order, before, after, food, |order|, sqrt)
    ensures LiveMass(order, after, n) + SumMass(Left(order, before, food, n)) == LiveMass(order, before, n) + SumMass(food)
    decreases n
  {
    hide *;
    if n == 0 {
      NothingGained(order, before, after, food);
    } else {
      EatingKeepsTotal(order, before, after, food, n - 1, sqrt);
      TurnKeepsTotal(order, before, after, food, n - 1, sqrt);
    }
  }

  lemma NothingGained(order: seq<EntityId>, before: map<EntityId, Snake>, after: map<EntityId, Snake>, food: map<EntityId, Food>)
    requires Roster(order, before)
    ensures SumMass(Left(order, before, food, 0)) == SumMass(food)
    ensures LiveMass(order, before, 0) == LiveMass(order, after, 0)
  {
    assert Left(order, before, food, 0) == food;
  }

  lemma TurnKeepsTotal(order: seq<EntityId>, before: map<EntityId, Snake>, after: map<EntityId, Snake>,
                       food: map<EntityId, Food>, n: nat, sqrt: real -> real)
    requires Roster(order, before) && n < |order| && Eaten(order, before, after, food, |order|, sqrt)
    ensures LiveMass(order, after, n + 1) - LiveMass(order, after, n) + SumMass(Left(order, before, food, n + 1)) ==
              LiveMass(order, before, n + 1) - LiveMass(order, before, n) + SumMass(Left(order, before, food, n))
  {
    hide Eaten, Left, Share, SumMass, Roster, Weight;
    LeftSplits(order, before, food, n);
    GainsWeight(order, before, after, food, n, sqrt);
  }

  lemma GainsWeight(order: seq<EntityId>, before: map<EntityId, Snake>, after: map<EntityId, Snake>,
                    food: map<EntityId, Food>, n: nat, sqrt: real -> real)
    requires Roster(order, before) && n < |order| && Eaten(order, before, after, food, |order|, sqrt)
    ensures Weight(after, order[n]) == Weight(before, order[n]) + SumMass(Share(order, before, food, n))
  {
    var share := Share(order, before, food, n);
    if !before[order[n]].alive {
      forall id: EntityId ensures id !in share.Keys {}
      assert share.Keys == {};
    }
  }

  // ---- Dying ---------------------------------------------------------------

  function MassAmong(order: seq<EntityId>, snakes: map<EntityId, Snake>, living: set<EntityId>, n: nat): real
    requires n <= |order|
  {
    if n == 0 then 0.0
    else MassAmong(order, snakes, living, n - 1) +
         (if order[n - 1] in living && order[n - 1] in snakes then snakes[order[n - 1]].mass else 0.0)
  }

  lemma {:induction false} OneFewer(order: seq<EntityId>, snakes: map<EntityId, Snake>, living: set<EntityId>, k: nat, n: nat)
    requires n <= |order| && k < |order| && order[k] in living && order[k] in snakes
    requires forall i, j :: 0 <= i < j < |order| ==> order[i] != order[j]
    ensures MassAmong(order, snakes, living - {order[k]}, n) ==
              MassAmong(order, snakes, living, n) - (if k < n then snakes[order[k]].mass else 0.0)
  {
    if n > 0 { OneFewer(order, snakes, living, k, n - 1); }
  }

  // The dead take their mass with them.
  lemma {:induction false} DyingTakes(view: View, order: seq<EntityId>, snakes: map<EntityId, Snake>, radius: real, n: nat,
                                      deaths: seq<Death>)
    requires Roster(order, snakes) && n <= |order| && Judged(view, order, snakes, radius, n, deaths) && VictimsIn(deaths, snakes)
    ensures MassAmong(order, snakes, Living(view, order, snakes, radius, n), |order|) ==
              MassAmong(order, snakes, Living(view, order, snakes, radius, 0), |order|) - Lost(deaths, snakes)
    decreases n
  {
    if n > 0 {
      var id, living := order[n - 1], Living(view, order, snakes, radius, n - 1);
      if Dies(view, snakes, id, living, radius) {
        var rest := deaths[..|deaths| - 1];
        assert id in living && id in snakes && deaths[|deaths| - 1].victim == id;
        DyingTakes(view, order, snakes, radius, n - 1, rest);
        assert forall i, j :: 0 <= i < j < |order| ==> order[i] != order[j];
        OneFewer(order, snakes, living, n - 1, |order|);
        hide MassAmong, Roster, Judged, Dies, Just;
      } else {
        DyingTakes(view, order, snakes, radius, n - 1, deaths);
      }
    }
  }

  lemma {:induction false} LiveIsAmong(order: seq<EntityId>, before: map<EntityId, Snake>, after: map<EntityId, Snake>,
                                       living: set<EntityId>, n: nat)
    requires n <= |order| && (forall i :: 0 <= i < |order| ==> order[i] in before)
    requires forall id :: id in before ==> id in after && after[id].mass == before[id].mass && after[id].alive == (id in living)
    ensures LiveMass(order, after, n) == MassAmong(order, before, living, n)
  {
    if n > 0 { LiveIsAmong(order, before, after, living, n - 1); }
  }

  // Of the dead's mass 60% stays, as food.
  lemma DyingLoses(view: View, order: seq<EntityId>, before: map<EntityId, Snake>, after: map<EntityId, Snake>, radius: real,
                   deaths: seq<Death>, first: EntityId, expiry: int, food0: map<EntityId, Food>, food: map<EntityId, Food>)
    requires Reckoned(view, order, before, after, radius, deaths, first, expiry, food0, food) && VictimsIn(deaths, before)
    ensures LiveMass(order, after, |order|) + SumMass(food) ==
              LiveMass(order, before, |order|) + SumMass(food0) - Lost(deaths, before) * 0.4
  {
    hide SumMass, LiveMass, MassAmong, AllStrewn, VictimsIn, Lost, Judged, KillsOf;
    DyingTakes(view, order, before, radius, |order|, deaths);
    LiveIsAmong(order, before, before, Living(view, order, before, radius, 0), |order|);
    LiveIsAmong(order, before, after, Living(view, order, before, radius, |order|), |order|);
  }

  // ---- Stocking and decay --------------------------------------------------

  lemma {:induction false} StockingAdds(food0: map<EntityId, Food>, food: map<EntityId, Food>, first: EntityId, n: nat,
                                        radius: real, sqrt: real -> real, cos: real -> real, sin: real -> real)
    requires Stocked(food0, food, first, n, radius, sqrt, cos, sin)
    ensures SumMass(food0) <= SumMass(food) <= SumMass(food0) + n as real * FOOD_MASS_MAX
    decreases n
  {
    if n == 0 {
      StockedNone(food0, food, first, radius, sqrt, cos, sin);
    } else {
      var last := first + n - 1;
      assert Ordinary(food[last], radius, sqrt, cos, sin);
      SumAny(food, last);
      hide Ordinary, SumMass;
      StockingAdds(food0, food - {last}, first, n - 1, radius, sqrt, cos, sin);
    }
  }

  lemma StockedNone(food0: map<EntityId, Food>, food: map<EntityId, Food>, first: EntityId,
                    radius: real, sqrt: real -> real, cos: real -> real, sin: real -> real)
    requires Stocked(food0, food, first, 0, radius, sqrt, cos, sin)
    ensures food == food0
  {
    hide Ordinary;
    forall id: EntityId | id in food.Keys ensures id in food0.Keys && food[id] == food0[id] {}
    forall id: EntityId | id in food0.Keys ensures id in food.Keys {}
    assert food.Keys == food0.Keys;
  }

  lemma DecayTakes(food: map<EntityId, Food>, tick: int)
    requires Edible(food)
    ensures SumMass(Kept(food, tick)) <= SumMass(food)
  {
    var gone := set id | id in food && Expired(food[id], tick);
    assert Unexpired(food, tick) == food - gone;
    SumSplits(food, gone);
    SumNotNegative(map id | id in gone :: food[id]);
  }

  // ---- Coming and going ----------------------------------------------------

  lemma {:induction false} LivePrefix(order: seq<EntityId>, rest: seq<EntityId>, snakes: map<EntityId, Snake>, n: nat)
    requires n <= |order|
    ensures LiveMass(order + rest, snakes, n) == LiveMass(order, snakes, n)
  {
    if n > 0 { LivePrefix(order, rest, snakes, n - 1); }
  }

  lemma {:induction false} LiveAppends(order: seq<EntityId>, before: map<EntityId, Snake>, id: EntityId, s: Snake)
    requires id !in order
    ensures LiveMass(order + [id], before[id := s], |order| + 1) ==
              LiveMass(order, before, |order|) + (if s.alive then s.mass else 0.0)
  {
    LivePrefix(order, [id], before[id := s], |order|);
    LiveBelow(order, before, before[id := s], |order|);
    LiveBelow(order, before[id := s], before, |order|);
  }

  lemma {:induction false} WithoutLast(order: seq<EntityId>, last: EntityId, id: EntityId)
    ensures Without(order + [last], id) == Without(order, id) + (if last == id then [] else [last])
  {
    if order == [] {
      assert [last][1..] == [];
    } else {
      assert (order + [last])[1..] == order[1..] + [last];
      WithoutLast(order[1..], last, id);
    }
  }

  lemma {:induction false} LiveWithout(order: seq<EntityId>, snakes: map<EntityId, Snake>, id: EntityId)
    requires Weight(snakes, id) == 0.0
    ensures LiveMass(Without(order, id), snakes, |Without(order, id)|) == LiveMass(order, snakes, |order|)
  {
    if order != [] {
      var front, last := order[..|order| - 1], order[|order| - 1];
      assert order == front + [last];
      LiveWithout(front, snakes, id);
      WithoutLast(front, last, id);
      LivePrefix(front, [last], snakes, |front|);
      var rest := Without(front, id);
      LivePrefix(rest, [last], snakes, |rest|);
      hide Without, Weight;
      assert order[..|order|] == order;
      assert LiveMass(order, snakes, |order|) == LiveMass(front, snakes, |front|) + Weight(snakes, last);
      if last == id {
        assert rest + [] == rest;
      } else {
        assert LiveMass(rest + [last], snakes, |rest| + 1) == LiveMass(rest, snakes, |rest|) + Weight(snakes, last);
      }
    }
  }

  lemma {:induction false} LiveRemoves(order: seq<EntityId>, snakes: map<EntityId, Snake>, k: nat, n: nat)
    requires n <= |order| && k < |order| && forall i, j :: 0 <= i < j < |order| ==> order[i] != order[j]
    ensures LiveMass(order, snakes - {order[k]}, n) ==
              LiveMass(order, snakes, n) - (if k < n then Weight(snakes, order[k]) else 0.0)
  {
    if n > 0 { LiveRemoves(order, snakes, k, n - 1); }
  }

  // A departure takes the living snake's mass out of the world.
  lemma LeavingTakes(order: seq<EntityId>, snakes: map<EntityId, Snake>, id: EntityId)
    requires Roster(order, snakes) && id in snakes
    ensures var rest := Without(order, id);
            LiveMass(rest, snakes - {id}, |rest|) == LiveMass(order, snakes, |order|) - Weight(snakes, id)
  {
    assert id in order;
    var k :| 0 <= k < |order| && order[k] == id;
    LiveRemoves(order, snakes, k, |order|);
    LiveWithout(order, snakes - {id}, id);
  }

  // ---- A tick --------------------------------------------------------------

  // A tick creates no mass but the new pellets', and keeps 60% of the dead's.
  lemma TickCreatesNothing(r: Rules, before: State, after: State, result: TickResult, t: Trace)
    requires Ticked(r, before, after, result, t) && AllFit(before.snakes, r.sqrt)
    ensures Total(after) <= Total(before) - Lost(result.deaths, t.fed) * 0.4 + result.foodSpawned as real * FOOD_MASS_MAX
  {
    hide LiveMass, SumMass, Lost, Reckoned, Stocked, VictimsIn, After, Budget, AllFit, AllMoved, Emptied, Steered, Kept;
    var order := before.order;
    MovingLightens(order, before.snakes, before.pendingInputs, DtSeconds(r.tickRateHz), r.sqrt, r.cos, r.sin);
    EatingKeepsTotal(order, t.moved, t.fed, before.food, |order|, r.sqrt);
    DyingLoses(Grid(r.cellSize), order, t.fed, after.snakes, r.radius, result.deaths, before.nextEntityId,
               ExpiryAt(before.tick, r.tickRateHz), t.left, t.strewn);
    StockingAdds(t.strewn, t.stocked, After(result.deaths, t.fed, before.nextEntityId), result.foodSpawned,
                 r.radius, r.sqrt, r.cos, r.sin);
    DecayTakes(t.stocked, before.tick);
  }
}
