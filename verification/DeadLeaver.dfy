// A snake that dies and whose player leaves afterwards is scattered twice.
module DeadLeaver {
  import opened Collisions
  import opened Feeding
  import opened Geometry
  import opened Movement
  import opened Scattering
  import opened Snakes
  import opened Timestep
  import opened World
  import opened WorldRuns

  // The pellets with n ids from this one on.
  ghost function Fallen(food: map<EntityId, Food>, first: EntityId, n: int): map<EntityId, Food> {
    map id | id in food && first <= id < first + n :: food[id]
  }

  // The player's snake, still in the world and dead at this mass.
  predicate LiesDeadAt(s: State, p: string, id: EntityId, mass: real) {
    p in s.playerIndex && s.playerIndex[p] == id && id in s.snakes && !s.snakes[id].alive && s.snakes[id].mass == mass
  }

  // ---- The dead keep their mass --------------------------------------------

  lemma FollowsKeepsDead(r: Rules, s: State, e: Event, s': State, p: string, id: EntityId, mass: real)
    requires Sound(s, r.sqrt) && Follows(r, s, e, s') && LiesDeadAt(s, p, id, mass) && !(e.Despawned? && e.playerId == p)
    ensures LiesDeadAt(s', p, id, mass)
  {
    hide AllFit, Edible, SumMass, Dropping, Drops, Roster;
    match e
    case Stepped(result, t) => TickKeepsDead(r, s, s', result, t, p, id, mass);
    case _ =>
  }

  lemma TickKeepsDead(r: Rules, s: State, s': State, result: TickResult, t: Trace, p: string, id: EntityId, mass: real)
    requires Ticked(r, s, s', result, t) && LiesDeadAt(s, p, id, mass)
    ensures LiesDeadAt(s', p, id, mass)
  {
    assert t.moved[id] == s.snakes[id] by { hide Moved, Grazed, Culled, AllFit; }
    DeadEatNothing(s.order, t.moved, t.fed, s.food, id, r.sqrt) by { hide AllMoved, Culled, AllFit, Eaten, Left; }
    DeadStayDead(Grid(r.cellSize), s.order, t.fed, s'.snakes, r.radius, result.deaths, id)
      by { hide Grown, Stocked, AllStrewn, SumMass, Judged, Swept, Living, Roster; }
    hide Grown, Culled;
  }

  lemma DeadEatNothing(order: seq<EntityId>, before: map<EntityId, Snake>, after: map<EntityId, Snake>,
                       food: map<EntityId, Food>, id: EntityId, sqrt: real -> real)
    requires Roster(order, before) && Eaten(order, before, after, food, |order|, sqrt) && id in before && !before[id].alive
    ensures id in after && !after[id].alive && after[id].mass == before[id].mass
  {
    assert id in order;
    var n :| 0 <= n < |order| && order[n] == id;
    var share := Share(order, before, food, n);
    forall x: EntityId ensures x !in share.Keys {}
    assert share.Keys == {};
  }

  lemma DeadStayDead(view: View, order: seq<EntityId>, before: map<EntityId, Snake>, after: map<EntityId, Snake>, radius: real,
                     deaths: seq<Death>, id: EntityId)
    requires Roster(order, before) && Swept(before, after, Living(view, order, before, radius, |order|), deaths)
    requires id in before && !before[id].alive
    ensures id in after && !after[id].alive && after[id].mass == before[id].mass
  {
    LivingShrinks(view, order, before, radius, 0, |order|);
    assert id !in Living(view, order, before, radius, 0);
  }

  lemma {:induction false} RunKeepsDead(r: Rules, history: seq<State>, events: seq<Event>, i: nat, j: nat, p: string,
                                        id: EntityId, mass: real)
    requires IsRun(r, history, events) && i <= j < |history| == |events| + 1 && LiesDeadAt(history[i], p, id, mass)
    requires forall k :: i <= k < j ==> !(events[k].Despawned? && events[k].playerId == p)
    ensures LiesDeadAt(history[j], p, id, mass)
  {
    hide *;
    if i < j {
      RunKeepsDead(r, history, events, i, j - 1, p, id, mass);
      RunStep(r, history, events, j - 1);
      FollowsKeepsDead(r, history[j - 1], events[j - 1], history[j], p, id, mass);
    }
  }

  // ---- Both scatterings ----------------------------------------------------

  // All the drops of a body weigh 60% of it.
  lemma DropsWeigh(s: Snake, first: EntityId, expiry: int, food: map<EntityId, Food>)
    requires |s.spine| >= 1 && Strewn(s, first, expiry, food)
    ensures SumMass(Fallen(food, first, Drops(s.mass))) == s.mass * 0.6
  {
    hide *;
    FallenScattered(s, first, expiry, food);
    ScatteredSum(s, first, Drops(s.mass), Fallen(food, first, Drops(s.mass)));
    DropsAddUp(s);
  }

  lemma FallenScattered(s: Snake, first: EntityId, expiry: int, food: map<EntityId, Food>)
    requires |s.spine| >= 1 && Strewn(s, first, expiry, food)
    ensures Scattered(s, first, Drops(s.mass), Fallen(food, first, Drops(s.mass)))
  {
    hide PointAt, DropOffset, DropMass, Drops;
    var fallen := Fallen(food, first, Drops(s.mass));
    forall id: EntityId | id in fallen ensures fallen[id].mass == DropMass(s) {
      assert IsDrop(s, id - first, expiry, food[id]);
    }
  }

  // A tick's victim stays in the world, dead, at the mass it died with.
  lemma VictimDies(r: Rules, s: State, s': State, result: TickResult, t: Trace, i: nat)
    requires Ticked(r, s, s', result, t) && i < |result.deaths|
    ensures VictimsIn(result.deaths, t.fed)
    ensures var id := result.deaths[i].victim;
            id in t.fed && |t.fed[id].spine| >= 1 && id in s'.snakes && !s'.snakes[id].alive && s'.snakes[id].mass == t.fed[id].mass
  {
    var id, view := result.deaths[i].victim, Grid(r.cellSize);
    assert Reckoned(view, s.order, t.fed, s'.snakes, r.radius, result.deaths, s.nextEntityId,
                    ExpiryAt(s.tick, r.tickRateHz), t.left, t.strewn) && VictimsIn(result.deaths, t.fed) by {
      hide Reckoned, VictimsIn, Stocked, Grown;
    }
    hide Ticked, AllStrewn, SumMass, KillsOf;
    EachVictimOnce(view, s.order, t.fed, r.radius, |s.order|, result.deaths);
    Witness(result.deaths, i);
    assert id !in Living(view, s.order, t.fed, r.radius, |s.order|) by { hide Living, Judged, Swept, Roster; }
    hide Living, Judged, Roster;
  }

  // The i-th victim's body has fallen as 60% of its mass.
  ghost predicate BodyPaid(deaths: seq<Death>, snakes: map<EntityId, Snake>, i: nat, first: EntityId, s': State) {
    && VictimsIn(deaths, snakes) && i < |deaths|
    && var mass, from := snakes[deaths[i].victim].mass, After(deaths[..i], snakes, first);
       SumMass(Fallen(s'.food, from, Drops(mass))) == mass * 0.6 && from + Drops(mass) <= s'.nextEntityId
  }

  lemma VictimFalls(r: Rules, s: State, s': State, result: TickResult, t: Trace, i: nat)
    requires Sound(s', r.sqrt) && Ticked(r, s, s', result, t) && i < |result.deaths|
    ensures BodyPaid(result.deaths, t.fed, i, s.nextEntityId, s')
  {
    hide Ticked;
    BodiesLieWhole(r, s, s', result, t, i);
    VictimDies(r, s, s', result, t, i);
    var body, from := t.fed[result.deaths[i].victim], After(result.deaths[..i], t.fed, s.nextEntityId);
    var expiry := ExpiryAt(s.tick, r.tickRateHz);
    hide Ticked, After, SumMass, Fallen, IsDrop, ExpiryAt, VictimsIn, Linked, AllFit, Edible, Drops;
    assert Strewn(body, from, expiry, s'.food);
    assert from + Drops(body.mass) - 1 in s'.food;
    DropsWeigh(body, from, expiry, s'.food);
  }

  lemma LeaverFalls(r: Rules, s: State, p: string, s': State)
    requires p in s.playerIndex && Leaves(r, s, p, true, s')
    ensures var body := s.snakes[s.playerIndex[p]];
            SumMass(Fallen(s'.food, s.nextEntityId, Drops(body.mass))) == body.mass * 0.6
  {
    var body := s.snakes[s.playerIndex[p]];
    assert Strewn(body, s.nextEntityId, ExpiryAt(s.tick, r.tickRateHz), s'.food) by { hide IsDrop, Drops, SumMass; }
    DropsWeigh(body, s.nextEntityId, ExpiryAt(s.tick, r.tickRateHz), s'.food);
  }

  // The tick killed this player's snake.
  predicate Kills(s: State, e: Event, p: string, i: nat) {
    e.Stepped? && i < |e.result.deaths| && p in s.playerIndex && e.result.deaths[i].victim == s.playerIndex[p]
  }

  // In any run: if a tick kills a player's snake and the player leaves later, its
  // body falls twice, as two separate sets of pellets, and they weigh 120% of it.
  lemma DeadLeaverPaysTwice(r: Rules, history: seq<State>, events: seq<Event>, p: string, k: nat, i: nat, j: nat)
    requires IsRun(r, history, events) && k < j < |events| && events[j] == Despawned(p, true)
    requires k < |history| && Kills(history[k], events[k], p, i)
    requires forall m :: k < m < j ==> !(events[m].Despawned? && events[m].playerId == p)
    ensures |history| == |events| + 1 && p in history[j].playerIndex && history[j].playerIndex[p] in history[j].snakes
    ensures VictimsIn(events[k].result.deaths, events[k].t.fed)
    ensures var body := history[j].snakes[history[j].playerIndex[p]];
            var n, first, second := Drops(body.mass), After(events[k].result.deaths[..i], events[k].t.fed, history[k].nextEntityId),
                                    history[j].nextEntityId;
            && first + n <= second && second == history[j + 1].nextEntityId - n
            && SumMass(Fallen(history[k + 1].food, first, n)) + SumMass(Fallen(history[j + 1].food, second, n)) == body.mass * 1.2
  {
    RunStep(r, history, events, k);
    RunStep(r, history, events, j);
    var s, s', e := history[k], history[k + 1], events[k];
    assert Sound(s', r.sqrt) by { hide Sound, Follows; }
    var id := s.playerIndex[p];
    assert Ticked(r, s, s', e.result, e.t) by { hide Ticked, Sound; }
    VictimDies(r, s, s', e.result, e.t, i);
    VictimFalls(r, s, s', e.result, e.t, i);
    var mass := e.t.fed[id].mass;
    assert LiesDeadAt(s', p, id, mass) by { hide Grown, Culled, Sound, IsRun, Follows; }
    RunKeepsDead(r, history, events, k + 1, j, p, id, mass);
    assert Leaves(r, history[j], p, true, history[j + 1]) by { hide Leaves, Sound, Ticked, IsRun; }
    LeaverFalls(r, history[j], p, history[j + 1]);
    RunIds(r, history, events, k + 1, j);
    assert history[j + 1].nextEntityId == history[j].nextEntityId + Drops(mass) by { hide Sound, Ticked, IsRun, Dropping, SumMass; }
    hide IsRun, Sound, Follows, Ticked, Leaves, SumMass, Fallen, After, Drops, VictimsIn;
  }
}
