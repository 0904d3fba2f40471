// The whole collision phase: the sweep, then the bodies of the dead as food.
module Scattering {
  import opened Collisions
  import opened Feeding
  import opened Geometry
  import opened Options
  import opened Snakes
  import opened Sweep
  import opened World

  ghost predicate VictimsIn(deaths: seq<Death>, snakes: map<EntityId, Snake>) {
    forall i :: 0 <= i < |deaths| ==> deaths[i].victim in snakes && |snakes[deaths[i].victim].spine| >= 1
  }

  lemma {:induction false} VictimsPresent(view: View, order: seq<EntityId>, snakes: map<EntityId, Snake>, radius: real, n: nat,
                                          deaths: seq<Death>)
    requires Roster(order, snakes) && n <= |order| && Judged(view, order, snakes, radius, n, deaths)
    ensures VictimsIn(deaths, snakes)
    decreases n
  {
    if n > 0 {
      var living := Living(view, order, snakes, radius, n - 1);
      if Dies(view, snakes, order[n - 1], living, radius) {
        VictimsPresent(view, order, snakes, radius, n - 1, deaths[..|deaths| - 1]);
      } else {
        VictimsPresent(view, order, snakes, radius, n - 1, deaths);
      }
    }
  }

  // The next free id once these deaths have scattered theirs.
  function After(deaths: seq<Death>, snakes: map<EntityId, Snake>, first: EntityId): (next: EntityId)
    requires VictimsIn(deaths, snakes)
    ensures next >= first
  {
    if deaths == [] then first
    else After(deaths[..|deaths| - 1], snakes, first) + Drops(snakes[deaths[|deaths| - 1].victim].mass)
  }

  // The mass of these bodies.
  function Lost(deaths: seq<Death>, snakes: map<EntityId, Snake>): real
    requires VictimsIn(deaths, snakes)
  {
    if deaths == [] then 0.0
    else Lost(deaths[..|deaths| - 1], snakes) + snakes[deaths[|deaths| - 1].victim].mass
  }

  // The bodies fall one after the other beside the food that was there before.
  ghost predicate AllStrewn(deaths: seq<Death>, snakes: map<EntityId, Snake>, first: EntityId, expiry: int,
                            food0: map<EntityId, Food>, food: map<EntityId, Food>)
    requires VictimsIn(deaths, snakes)
  {
    if deaths == [] then food == food0
    else
      var before, s := deaths[..|deaths| - 1], snakes[deaths[|deaths| - 1].victim];
      exists mid: map<EntityId, Food> ::
        && Dropping(s, After(before, snakes, first), Drops(s.mass), expiry, mid, food)
        && AllStrewn(before, snakes, first, expiry, food0, mid)
  }

  lemma StrewnNext(deaths: seq<Death>, n: nat, snakes: map<EntityId, Snake>, first: EntityId, expiry: int,
                   food0: map<EntityId, Food>, mid: map<EntityId, Food>, food: map<EntityId, Food>)
    requires VictimsIn(deaths, snakes) && n < |deaths| && AllStrewn(deaths[..n], snakes, first, expiry, food0, mid)
    requires var s := snakes[deaths[n].victim];
             Dropping(s, After(deaths[..n], snakes, first), Drops(s.mass), expiry, mid, food)
    ensures AllStrewn(deaths[..n + 1], snakes, first, expiry, food0, food)
    ensures After(deaths[..n + 1], snakes, first) == After(deaths[..n], snakes, first) + Drops(snakes[deaths[n].victim].mass)
    ensures Lost(deaths[..n + 1], snakes) == Lost(deaths[..n], snakes) + snakes[deaths[n].victim].mass
  {
    assert deaths[..n + 1][..n] == deaths[..n] && deaths[..n + 1][n] == deaths[n];
    hide Dropping, Drops;
  }

  // All the drops of one body, from this id on.
  ghost predicate Strewn(s: Snake, first: EntityId, expiry: int, food: map<EntityId, Food>)
    requires |s.spine| >= 1
  {
    forall id :: first <= id < first + Drops(s.mass) ==> id in food && IsDrop(s, id - first, expiry, food[id])
  }

  // In the end every body lies there whole, the earlier food is as it was, and
  // nothing else came.
  lemma {:induction false} EachBodyFalls(deaths: seq<Death>, snakes: map<EntityId, Snake>, first: EntityId, expiry: int,
                                         food0: map<EntityId, Food>, food: map<EntityId, Food>, i: nat)
    requires VictimsIn(deaths, snakes) && AllStrewn(deaths, snakes, first, expiry, food0, food) && i < |deaths|
    ensures Strewn(snakes[deaths[i].victim], After(deaths[..i], snakes, first), expiry, food)
  {
    var before := deaths[..|deaths| - 1];
    var mid := LastBody(deaths, snakes, first, expiry, food0, food);
    hide AllStrewn, Dropping, Drops, IsDrop;
    if i < |before| {
      EachBodyFalls(before, snakes, first, expiry, food0, mid, i);
      assert before[..i] == deaths[..i];
      StrewnStays(snakes[deaths[i].victim], After(deaths[..i], snakes, first), expiry, mid, food);
    } else {
      assert deaths[..i] == before;
    }
  }

  lemma LastBody(deaths: seq<Death>, snakes: map<EntityId, Snake>, first: EntityId, expiry: int,
                 food0: map<EntityId, Food>, food: map<EntityId, Food>) returns (mid: map<EntityId, Food>)
    requires VictimsIn(deaths, snakes) && AllStrewn(deaths, snakes, first, expiry, food0, food) && deaths != []
    ensures var before, s := deaths[..|deaths| - 1], snakes[deaths[|deaths| - 1].victim];
            && AllStrewn(before, snakes, first, expiry, food0, mid)
            && Dropping(s, After(before, snakes, first), Drops(s.mass), expiry, mid, food)
            && Strewn(s, After(before, snakes, first), expiry, food)
    ensures forall id :: id in mid ==> id in food && food[id] == mid[id]
  {
    var before, s := deaths[..|deaths| - 1], snakes[deaths[|deaths| - 1].victim];
    mid :| Dropping(s, After(before, snakes, first), Drops(s.mass), expiry, mid, food)
      && AllStrewn(before, snakes, first, expiry, food0, mid);
    hide AllStrewn, After, Drops, IsDrop;
  }

  lemma StrewnStays(s: Snake, first: EntityId, expiry: int, before: map<EntityId, Food>, food: map<EntityId, Food>)
    requires |s.spine| >= 1 && Strewn(s, first, expiry, before)
    requires forall id :: id in before ==> id in food && food[id] == before[id]
    ensures Strewn(s, first, expiry, food)
  {
    hide Drops, IsDrop;
  }

  lemma {:induction false} NothingElseFalls(deaths: seq<Death>, snakes: map<EntityId, Snake>, first: EntityId, expiry: int,
                                            food0: map<EntityId, Food>, food: map<EntityId, Food>)
    requires VictimsIn(deaths, snakes) && AllStrewn(deaths, snakes, first, expiry, food0, food)
    requires forall id :: id in food0 ==> id < first
    ensures forall id :: id in food <==> id in food0 || first <= id < After(deaths, snakes, first)
    ensures forall id :: id in food0 ==> food[id] == food0[id]
    ensures forall id :: id in food && id !in food0 ==> food[id].expiresAtTick == Some(expiry)
  {
    if deaths != [] {
      var before, s := deaths[..|deaths| - 1], snakes[deaths[|deaths| - 1].victim];
      var mid :| Dropping(s, After(before, snakes, first), Drops(s.mass), expiry, mid, food)
        && AllStrewn(before, snakes, first, expiry, food0, mid);
      NothingElseFalls(before, snakes, first, expiry, food0, mid);
      hide AllStrewn, Drops, DropMass;
    }
  }

  // After the sweep, so that no one eats a body in the tick it fell.
  method ScatterDeaths(world: WorldState, deaths: seq<Death>)
    requires world.Consistent() && VictimsIn(deaths, world.snakes)
    modifies world`food, world`nextEntityId, world`drawn
    ensures world.Consistent() && world.nextEntityId == After(deaths, world.snakes, old(world.nextEntityId))
    ensures AllStrewn(deaths, world.snakes, old(world.nextEntityId), ExpiryAt(world.tick, world.tickRateHz),
                      old(world.food), world.food)
    ensures SumMass(world.food) == SumMass(old(world.food)) + Lost(deaths, world.snakes) * 0.6
  {
    ghost var food, first, expiry := world.food, world.nextEntityId, ExpiryAt(world.tick, world.tickRateHz);
    assert deaths[..0] == [] && deaths[..|deaths|] == deaths;
    hide Linked, Edible, FreshIds, AllStrewn, After, Lost, SumMass, Dropping, Drops;
    NothingStrewn(world.snakes, first, expiry, food);
    for n := 0 to |deaths|
      invariant world.Consistent() && world.nextEntityId == After(deaths[..n], world.snakes, first)
      invariant AllStrewn(deaths[..n], world.snakes, first, expiry, food, world.food)
      invariant SumMass(world.food) == SumMass(food) + Lost(deaths[..n], world.snakes) * 0.6
    {
      ghost var before := world.food;
      world.ScatterMass(world.snakes[deaths[n].victim]);
      StrewnNext(deaths, n, world.snakes, first, expiry, food, before, world.food);
    }
  }

  lemma NothingStrewn(snakes: map<EntityId, Snake>, first: EntityId, expiry: int, food: map<EntityId, Food>)
    ensures AllStrewn([], snakes, first, expiry, food, food) && After([], snakes, first) == first && Lost([], snakes) == 0.0
  {
  }

  // A collision phase: the sweep's deaths and survivors, and every body fallen as food.
  ghost predicate Reckoned(view: View, order: seq<EntityId>, before: map<EntityId, Snake>, after: map<EntityId, Snake>,
                           radius: real, deaths: seq<Death>, first: EntityId, expiry: int,
                           food0: map<EntityId, Food>, food: map<EntityId, Food>) {
    && Roster(order, before) && Judged(view, order, before, radius, |order|, deaths)
    && Swept(before, after, Living(view, order, before, radius, |order|), deaths)
    && VictimsIn(deaths, before) && AllStrewn(deaths, before, first, expiry, food0, food)
    && SumMass(food) == SumMass(food0) + Lost(deaths, before) * 0.6
  }

  // Who dies is settled first; then every body falls as food.
  method DetectCollisions(world: WorldState, bodies: BodyIndex) returns (deaths: seq<Death>)
    requires world.Consistent() && bodies.Covers(world.snakes)
    modifies world`snakes, world`food, world`nextEntityId, world`drawn
    ensures world.Consistent()
    ensures Reckoned(Grid(bodies.hash.cellSize), world.order, old(world.snakes), world.snakes, world.radius, deaths,
                     old(world.nextEntityId), ExpiryAt(world.tick, world.tickRateHz), old(world.food), world.food)
    ensures VictimsIn(deaths, old(world.snakes)) && world.nextEntityId == After(deaths, old(world.snakes), old(world.nextEntityId))
  {
    CoversGrid(world, bodies);
    hide *;
    ghost var order, snakes, food, first := world.order, world.snakes, world.food, world.nextEntityId;
    ghost var view, expiry := Grid(bodies.hash.cellSize), ExpiryAt(world.tick, world.tickRateHz);
    deaths := bodies.JudgeHeads(world);
    ghost var after := world.snakes;
    assert world.order == order && world.food == food && world.nextEntityId == first;
    VictimsWeigh(view, order, snakes, after, world.radius, deaths, first);
    ScatterDeaths(world, deaths);
    assert world.order == order && world.snakes == after;
    Reckon(view, order, snakes, after, world.radius, deaths, first, expiry, food, world.food);
  }

  lemma CoversGrid(world: WorldState, bodies: BodyIndex)
    requires world.Consistent() && bodies.Covers(world.snakes)
    ensures Roster(world.order, world.snakes) && bodies.hash.cellSize > 0.0
  {
  }

  lemma Reckon(view: View, order: seq<EntityId>, before: map<EntityId, Snake>, after: map<EntityId, Snake>, radius: real,
               deaths: seq<Death>, first: EntityId, expiry: int, food0: map<EntityId, Food>, food: map<EntityId, Food>)
    requires Roster(order, before) && Judged(view, order, before, radius, |order|, deaths)
    requires Swept(before, after, Living(view, order, before, radius, |order|), deaths)
    requires VictimsIn(deaths, before) && VictimsIn(deaths, after) && SameBodies(before, after)
    requires AllStrewn(deaths, after, first, expiry, food0, food)
    requires SumMass(food) == SumMass(food0) + Lost(deaths, after) * 0.6
    ensures Reckoned(view, order, before, after, radius, deaths, first, expiry, food0, food)
  {
    hide Roster, Judged, Swept, Living, VictimsIn, SameBodies, AllStrewn, SumMass, Lost, After;
    SameToll(before, after, deaths, first);
    SameStrewn(before, after, deaths, first, expiry, food0, food);
  }

  // Dying does not change what a body leaves.
  ghost predicate SameBodies(before: map<EntityId, Snake>, after: map<EntityId, Snake>) {
    forall id :: id in before ==> id in after && after[id].mass == before[id].mass && after[id].spine == before[id].spine
  }

  lemma DeadWeigh(before: map<EntityId, Snake>, after: map<EntityId, Snake>, living: set<EntityId>, deaths: seq<Death>)
    requires VictimsIn(deaths, before) && Swept(before, after, living, deaths)
    ensures VictimsIn(deaths, after) && SameBodies(before, after)
  {
    hide KillsOf;
  }

  lemma VictimsWeigh(view: View, order: seq<EntityId>, before: map<EntityId, Snake>, after: map<EntityId, Snake>, radius: real,
                     deaths: seq<Death>, first: EntityId)
    requires Roster(order, before) && Judged(view, order, before, radius, |order|, deaths)
    requires Swept(before, after, Living(view, order, before, radius, |order|), deaths)
    ensures VictimsIn(deaths, before) && VictimsIn(deaths, after) && SameBodies(before, after)
    ensures After(deaths, after, first) == After(deaths, before, first) && Lost(deaths, after) == Lost(deaths, before)
  {
    hide *;
    VictimsPresent(view, order, before, radius, |order|, deaths);
    DeadWeigh(before, after, Living(view, order, before, radius, |order|), deaths);
    SameToll(before, after, deaths, first);
  }

  lemma {:induction false} SameToll(before: map<EntityId, Snake>, after: map<EntityId, Snake>, deaths: seq<Death>,
                                    first: EntityId)
    requires VictimsIn(deaths, before) && VictimsIn(deaths, after) && SameBodies(before, after)
    ensures After(deaths, after, first) == After(deaths, before, first) && Lost(deaths, after) == Lost(deaths, before)
  {
    if deaths != [] { SameToll(before, after, deaths[..|deaths| - 1], first); }
  }

  lemma {:induction false} SameStrewn(before: map<EntityId, Snake>, after: map<EntityId, Snake>, deaths: seq<Death>,
                                      first: EntityId, expiry: int, food0: map<EntityId, Food>, food: map<EntityId, Food>)
    requires VictimsIn(deaths, before) && VictimsIn(deaths, after) && SameBodies(before, after)
    requires AllStrewn(deaths, after, first, expiry, food0, food)
    ensures AllStrewn(deaths, before, first, expiry, food0, food)
  {
    if deaths != [] {
      var front, d := deaths[..|deaths| - 1], deaths[|deaths| - 1].victim;
      var mid :| Dropping(after[d], After(front, after, first), Drops(after[d].mass), expiry, mid, food)
        && AllStrewn(front, after, first, expiry, food0, mid);
      SameToll(before, after, front, first);
      SameStrewn(before, after, front, first, expiry, food0, mid);
      SameDropping(before[d], after[d], After(front, before, first), expiry, mid, food);
    }
  }

  lemma SameDropping(a: Snake, b: Snake, first: EntityId, expiry: int, food0: map<EntityId, Food>, food: map<EntityId, Food>)
    requires |a.spine| >= 1 && a.spine == b.spine && a.mass == b.mass
    requires Dropping(b, first, Drops(b.mass), expiry, food0, food)
    ensures Dropping(a, first, Drops(a.mass), expiry, food0, food)
  {
    forall i, f: Food { SameDrop(a, b, i, expiry, f); }
    hide Drops, IsDrop;
  }

  lemma SameDrop(a: Snake, b: Snake, i: int, expiry: int, f: Food)
    requires |a.spine| >= 1 && a.spine == b.spine && a.mass == b.mass
    ensures IsDrop(a, i, expiry, f) == IsDrop(b, i, expiry, f)
  {
    hide Drops, DropOffset;
  }
}
