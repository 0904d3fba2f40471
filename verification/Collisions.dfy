// The collision rule turn by turn: who dies in one sweep, and by whom, for a sweep
// that looks at every body point or only at those a grid brings up.
module Collisions {
  import opened Geometry
  import opened Options
  import opened Snakes
  import SpatialHash

  const NECK: int := 4
  const MARGIN: real := 40.0

  datatype Cause = Wall | Collision

  datatype Death = Death(victim: EntityId, killer: Option<EntityId>, cause: Cause, finalScore: int)

  predicate HitsWall(s: Snake, radius: real)
    requires |s.spine| >= 1
  {
    radius <= 0.0 || Square(Head(s).x) + Square(Head(s).y) >= Square(radius)
  }

  predicate Touches(s: Snake, other: Snake, offset: int)
    requires |s.spine| >= 1
  {
    NECK <= offset < |other.spine| && Within(other.spine[offset], Head(s), s.radius + other.radius)
  }

  type CellSize = c: real | c > 0.0 witness 1.0

  // Which body points a turn looks at: all of them, or those the grid's query brings up.
  datatype View = All | Grid(cellSize: CellSize)

  // A cell of the box around the head, widened by the margin.
  predicate Queried(s: Snake, cellSize: CellSize, cx: int, cy: int)
    requires |s.spine| >= 1
  {
    var head, reach := Head(s), s.radius + MARGIN;
    && SpatialHash.CellOf(head.x - reach, cellSize) <= cx < SpatialHash.CellOf(head.x + reach, cellSize) + 1
    && SpatialHash.CellOf(head.y - reach, cellSize) <= cy < SpatialHash.CellOf(head.y + reach, cellSize) + 1
  }

  // The point's key is that of a queried cell, its own or a colliding one.
  ghost predicate BroughtUp(s: Snake, cellSize: CellSize, p: Point)
    requires |s.spine| >= 1
  {
    exists cx: int, cy: int ::
      Queried(s, cellSize, cx, cy) && SpatialHash.CellKey(cx, cy) == SpatialHash.KeyAt(p.x, p.y, cellSize)
  }

  ghost predicate Seen(view: View, s: Snake, p: Point)
    requires |s.spine| >= 1
  {
    view.Grid? ==> BroughtUp(s, view.cellSize, p)
  }

  // The head of one snake is on a body point of another that its turn looks at.
  ghost predicate Contact(view: View, s: Snake, other: Snake)
    requires |s.spine| >= 1
  {
    exists offset :: Touches(s, other, offset) && Seen(view, s, other.spine[offset])
  }

  ghost predicate Killer(view: View, snakes: map<EntityId, Snake>, victim: EntityId, killer: EntityId, living: set<EntityId>)
    requires victim in snakes && |snakes[victim].spine| >= 1 && living <= snakes.Keys
  {
    killer in living && killer != victim && Contact(view, snakes[victim], snakes[killer])
  }

  ghost predicate Dies(view: View, snakes: map<EntityId, Snake>, id: EntityId, living: set<EntityId>, radius: real)
    requires id in snakes && |snakes[id].spine| >= 1 && living <= snakes.Keys
  {
    id in living && (HitsWall(snakes[id], radius) || exists k :: Killer(view, snakes, id, k, living))
  }

  // The ids alive after the first n snakes took their turn; with `All` this is brute force.
  ghost function Living(view: View, order: seq<EntityId>, snakes: map<EntityId, Snake>, radius: real, n: nat):
      (living: set<EntityId>)
    requires Roster(order, snakes) && n <= |order|
    ensures living <= snakes.Keys
    decreases n
  {
    if n == 0 then set id | id in snakes && snakes[id].alive
    else
      var living := Living(view, order, snakes, radius, n - 1);
      if Dies(view, snakes, order[n - 1], living, radius) then living - {order[n - 1]} else living
  }

  // A death is a wall death exactly when the head is at the wall; otherwise its
  // killer is another snake, alive at that moment and in contact.
  ghost predicate Just(view: View, snakes: map<EntityId, Snake>, id: EntityId, living: set<EntityId>, radius: real, d: Death)
    requires id in snakes && |snakes[id].spine| >= 1 && living <= snakes.Keys
  {
    && d.victim == id && d.finalScore == snakes[id].score
    && (if HitsWall(snakes[id], radius) then d.cause == Wall && d.killer == None
        else d.cause == Collision && d.killer.Some? && Killer(view, snakes, id, d.killer.value, living))
  }

  // The deaths of the first n turns, in turn order.
  ghost predicate Judged(view: View, order: seq<EntityId>, snakes: map<EntityId, Snake>, radius: real, n: nat, deaths: seq<Death>)
    requires Roster(order, snakes) && n <= |order|
    decreases n
  {
    if n == 0 then deaths == []
    else
      var id, living := order[n - 1], Living(view, order, snakes, radius, n - 1);
      if Dies(view, snakes, id, living, radius) then
        |deaths| > 0 && Just(view, snakes, id, living, radius, deaths[|deaths| - 1]) &&
        Judged(view, order, snakes, radius, n - 1, deaths[..|deaths| - 1])
      else Judged(view, order, snakes, radius, n - 1, deaths)
  }

  function KillsOf(deaths: seq<Death>, id: EntityId): nat {
    if deaths == [] then 0
    else KillsOf(deaths[..|deaths| - 1], id) + (if deaths[|deaths| - 1].killer == Some(id) then 1 else 0)
  }

  function CollisionDeaths(deaths: seq<Death>): nat {
    if deaths == [] then 0
    else CollisionDeaths(deaths[..|deaths| - 1]) + (if deaths[|deaths| - 1].cause == Collision then 1 else 0)
  }

  function TotalKills(order: seq<EntityId>, snakes: map<EntityId, Snake>, n: nat): nat
    requires Roster(order, snakes) && n <= |order|
    decreases n
  {
    if n == 0 then 0 else TotalKills(order, snakes, n - 1) + snakes[order[n - 1]].kills
  }

  // The world after the sweep, as a function of the deaths.
  ghost predicate Swept(before: map<EntityId, Snake>, after: map<EntityId, Snake>, living: set<EntityId>, deaths: seq<Death>) {
    && after.Keys == before.Keys
    && forall id :: id in before ==>
         after[id] == before[id].(alive := id in living, kills := before[id].kills + KillsOf(deaths, id))
  }

  // Turns only ever remove the snake whose turn it is.
  lemma {:induction false} LivingShrinks(view: View, order: seq<EntityId>, snakes: map<EntityId, Snake>, radius: real,
                                         m: nat, n: nat)
    requires Roster(order, snakes) && m <= n <= |order|
    ensures Living(view, order, snakes, radius, n) <= Living(view, order, snakes, radius, m)
    ensures forall i :: n <= i < |order| && order[i] in Living(view, order, snakes, radius, m) ==>
              order[i] in Living(view, order, snakes, radius, n)
    decreases n
  {
    if m < n { LivingShrinks(view, order, snakes, radius, m, n - 1); }
  }

  ghost predicate Victim(deaths: seq<Death>, id: EntityId) {
    exists i :: 0 <= i < |deaths| && deaths[i].victim == id
  }

  lemma VictimGrows(rest: seq<Death>, d: Death, id: EntityId)
    ensures Victim(rest + [d], id) <==> id == d.victim || Victim(rest, id)
  {
    var deaths := rest + [d];
    if id == d.victim { assert deaths[|rest|].victim == id; }
    if Victim(rest, id) {
      var i :| 0 <= i < |rest| && rest[i].victim == id;
      assert deaths[i].victim == id;
    }
  }

  lemma Witness(deaths: seq<Death>, i: nat)
    requires i < |deaths|
    ensures Victim(deaths, deaths[i].victim)
  {
  }

  // Each victim dies once: the victims are exactly the snakes that were alive
  // before the sweep and are not after it, and no two deaths share one.
  lemma {:induction false} EachVictimOnce(view: View, order: seq<EntityId>, snakes: map<EntityId, Snake>, radius: real, n: nat,
                                          deaths: seq<Death>)
    requires Roster(order, snakes) && n <= |order| && Judged(view, order, snakes, radius, n, deaths)
    ensures forall id :: Victim(deaths, id) <==>
              id in Living(view, order, snakes, radius, 0) && id !in Living(view, order, snakes, radius, n)
    ensures forall i, j :: 0 <= i < j < |deaths| ==> deaths[i].victim != deaths[j].victim
    decreases n
  {
    if n > 0 {
      var id, living := order[n - 1], Living(view, order, snakes, radius, n - 1);
      LivingShrinks(view, order, snakes, radius, 0, n - 1);
      if Dies(view, snakes, id, living, radius) {
        var rest := deaths[..|deaths| - 1];
        EachVictimOnce(view, order, snakes, radius, n - 1, rest);
        hide Dies, Roster, Judged, Victim;
        assert deaths == rest + [deaths[|rest|]];
        forall v { VictimGrows(rest, deaths[|rest|], v); }
        assert forall i :: 0 <= i < |rest| ==> Victim(rest, rest[i].victim) by { forall i | 0 <= i < |rest| { Witness(rest, i); } }
      } else {
        EachVictimOnce(view, order, snakes, radius, n - 1, deaths);
      }
    }
  }

  lemma {:induction false} KillsMatchCollisions(view: View, order: seq<EntityId>, snakes: map<EntityId, Snake>, radius: real,
                                                n: nat, deaths: seq<Death>)
    requires Roster(order, snakes) && n <= |order| && Judged(view, order, snakes, radius, n, deaths)
    ensures CreditedKills(order, deaths, |order|) == CollisionDeaths(deaths)
    decreases n
  {
    if n == 0 {
      NoCredit(order, |order|);
    } else if Dies(view, snakes, order[n - 1], Living(view, order, snakes, radius, n - 1), radius) {
      var rest, d := deaths[..|deaths| - 1], deaths[|deaths| - 1];
      KillsMatchCollisions(view, order, snakes, radius, n - 1, rest);
      CreditGrows(order, rest, d, |order|);
      assert deaths == rest + [d];
    } else {
      KillsMatchCollisions(view, order, snakes, radius, n - 1, deaths);
    }
  }

  function CreditedKills(order: seq<EntityId>, deaths: seq<Death>, n: nat): nat
    requires n <= |order|
    decreases n
  {
    if n == 0 then 0 else CreditedKills(order, deaths, n - 1) + KillsOf(deaths, order[n - 1])
  }

  lemma {:induction false} NoCredit(order: seq<EntityId>, n: nat)
    requires n <= |order|
    ensures CreditedKills(order, [], n) == 0
    decreases n
  {
    if n > 0 { NoCredit(order, n - 1); }
  }

  lemma {:induction false} CreditGrows(order: seq<EntityId>, rest: seq<Death>, d: Death, n: nat)
    requires n <= |order| && forall i, j :: 0 <= i < j < |order| ==> order[i] != order[j]
    ensures CreditedKills(order, rest + [d], n) ==
              CreditedKills(order, rest, n) + if d.killer.Some? && d.killer.value in order[..n] then 1 else 0
    decreases n
  {
    if n > 0 {
      CreditGrows(order, rest, d, n - 1);
      assert (rest + [d])[..|rest|] == rest;
      assert order[..n] == order[..n - 1] + [order[n - 1]];
    }
  }

  lemma {:induction false} TotalRises(order: seq<EntityId>, before: map<EntityId, Snake>, after: map<EntityId, Snake>,
                                      living: set<EntityId>, deaths: seq<Death>, n: nat)
    requires Roster(order, before) && Roster(order, after) && n <= |order| && Swept(before, after, living, deaths)
    ensures TotalKills(order, after, n) == TotalKills(order, before, n) + CreditedKills(order, deaths, n)
    decreases n
  {
    if n > 0 { TotalRises(order, before, after, living, deaths, n - 1); }
  }

  // Kills rise, over all snakes, by exactly the number of collision deaths.
  lemma KillsRise(view: View, order: seq<EntityId>, before: map<EntityId, Snake>, after: map<EntityId, Snake>, radius: real,
                  deaths: seq<Death>)
    requires Roster(order, before) && Roster(order, after) && Judged(view, order, before, radius, |order|, deaths)
    requires Swept(before, after, Living(view, order, before, radius, |order|), deaths)
    ensures TotalKills(order, after, |order|) == TotalKills(order, before, |order|) + CollisionDeaths(deaths)
  {
    hide *;
    KillsMatchCollisions(view, order, before, radius, |order|, deaths);
    TotalRises(order, before, after, Living(view, order, before, radius, |order|), deaths, |order|);
  }
}
