// The collision sweep through the grid, proved against the turn-by-turn rule.
module Sweep {
  import opened Collisions
  import opened Feeding
  import opened Geometry
  import opened Options
  import opened Snakes
  import opened World
  import SpatialHash

  // A body point: which snake, and how far from its head.
  ghost predicate Names(owner: map<EntityId, EntityId>, point: map<EntityId, int>, key: EntityId, id: EntityId, offset: int) {
    key in owner && key in point && owner[key] == id && point[key] == offset
  }

  ghost predicate Posted(buckets: map<int, seq<EntityId>>, cellSize: real, p: Point, key: EntityId)
    requires cellSize > 0.0
  {
    key in SpatialHash.Bag(buckets, SpatialHash.KeyAt(p.x, p.y, cellSize))
  }

  // Every key names a body point of a snake that was alive at the rebuild.
  ghost predicate Sound(owner: map<EntityId, EntityId>, point: map<EntityId, int>, snakes: map<EntityId, Snake>) {
    forall key :: key in owner ==>
      && key in point && owner[key] in snakes && snakes[owner[key]].alive
      && NECK <= point[key] < |snakes[owner[key]].spine|
  }

  ghost predicate Present(buckets: map<int, seq<EntityId>>, cellSize: real, owner: map<EntityId, EntityId>,
                          point: map<EntityId, int>, s: Snake, offset: int)
    requires cellSize > 0.0 && NECK <= offset < |s.spine|
  {
    exists key :: Names(owner, point, key, s.id, offset) && Posted(buckets, cellSize, s.spine[offset], key)
  }

  // Every filed key lies under the cell of the body point it names.
  ghost predicate Placed(buckets: map<int, seq<EntityId>>, cellSize: CellSize, owner: map<EntityId, EntityId>,
                         point: map<EntityId, int>, snakes: map<EntityId, Snake>) {
    forall k: int, key: EntityId :: key in SpatialHash.Bag(buckets, k) ==>
      && key in owner && key in point && owner[key] in snakes && 0 <= point[key] < |snakes[owner[key]].spine|
      && KeyOf(snakes[owner[key]].spine[point[key]], cellSize) == k
  }

  function KeyOf(p: Point, cellSize: CellSize): int {
    SpatialHash.KeyAt(p.x, p.y, cellSize)
  }

  ghost function AliveIds(snakes: map<EntityId, Snake>): set<EntityId> {
    set id | id in snakes && snakes[id].alive
  }

  class BodyIndex {
    const hash: SpatialHash.Hash
    var owner: map<EntityId, EntityId>
    var point: map<EntityId, int>

    ghost predicate Has(s: Snake, offset: int)
      requires hash.cellSize > 0.0 && NECK <= offset < |s.spine|
      reads this, hash
    {
      Present(hash.buckets, hash.cellSize, owner, point, s, offset)
    }

    ghost predicate HasAll(s: Snake, upTo: int)
      requires hash.cellSize > 0.0
      reads this, hash
    {
      forall offset :: NECK <= offset < upTo && offset < |s.spine| ==> Has(s, offset)
    }

    // The index names body points only, and all of them.
    ghost predicate Covers(snakes: map<EntityId, Snake>)
      reads this, hash
    {
      && hash.Valid() && Sound(owner, point, snakes) && Placed(hash.buckets, hash.cellSize, owner, point, snakes)
      && forall id :: id in snakes && snakes[id].alive ==> HasAll(snakes[id], |snakes[id].spine|)
    }

    constructor (cellSize: real)
      requires cellSize > 0.0
      ensures hash.Valid() && hash.cellSize == cellSize && fresh(hash) && owner == map[] && point == map[]
    {
      hash := new SpatialHash.Hash(cellSize);
      owner, point := map[], map[];
    }

    method Post(id: EntityId, key: EntityId, s: Snake, offset: int, ghost snakes: map<EntityId, Snake>)
      requires hash.Valid() && key !in owner && key !in point && NECK <= offset < |s.spine|
      requires id in snakes && snakes[id] == s && s.id == id && s.alive && Sound(owner, point, snakes)
      requires Placed(hash.buckets, hash.cellSize, owner, point, snakes)
      modifies this, hash`buckets
      ensures hash.Valid() && Sound(owner, point, snakes) && Has(s, offset)
      ensures Placed(hash.buckets, hash.cellSize, owner, point, snakes)
      ensures owner == old(owner)[key := id] && point == old(point)[key := offset]
      ensures forall t: Snake, o: int :: NECK <= o < |t.spine| && old(Has(t, o)) ==> Has(t, o)
    {
      hide Placed, SpatialHash.Added;
      var p := PointAt(s, offset);
      ghost var buckets, owner0, point0 := hash.buckets, owner, point;
      hash.Insert(key, p.x, p.y);
      owner := owner[key := id];
      point := point[key := offset];
      assert Names(owner, point, key, s.id, offset);
      JustPosted(buckets, hash.buckets, hash.cellSize, p, key);
      PlacedStays(buckets, hash.buckets, hash.cellSize, owner0, point0, snakes, id, offset, key);
      forall t: Snake, o: int | NECK <= o < |t.spine| && Present(buckets, hash.cellSize, owner0, point0, t, o)
        ensures Has(t, o)
      {
        StaysPresent(buckets, hash.buckets, hash.cellSize, owner0, owner, point0, point, t, o, p, key);
      }
    }

    // Skipping the neck of every living snake.
    method Rebuild(world: WorldState)
      requires hash.cellSize > 0.0 && Roster(world.order, world.snakes)
      modifies this, hash`buckets
      ensures Covers(world.snakes)
    {
      hide Present, Placed, SpatialHash.Bag;
      hash.Clear();
      owner, point := map[], map[];
      NothingPlaced(hash.cellSize, world.snakes);
      var key := 1;
      var order, snakes := world.order, world.snakes;
      for n := 0 to |order|
        invariant hash.Valid() && Sound(owner, point, snakes) && Placed(hash.buckets, hash.cellSize, owner, point, snakes)
        invariant forall k :: k in owner || k in point ==> k < key
        invariant forall m :: 0 <= m < n && snakes[order[m]].alive ==> HasAll(snakes[order[m]], |snakes[order[m]].spine|)
      {
        var snake := snakes[order[n]];
        if snake.alive {
          var offset := NECK;
          while offset < |snake.spine|
            invariant NECK <= offset
            invariant hash.Valid() && Sound(owner, point, snakes) && Placed(hash.buckets, hash.cellSize, owner, point, snakes)
            invariant forall k :: k in owner || k in point ==> k < key
            invariant forall m :: 0 <= m < n && snakes[order[m]].alive ==> HasAll(snakes[order[m]], |snakes[order[m]].spine|)
            invariant HasAll(snake, offset)
          {
            Post(snake.id, key, snake, offset, snakes);
            key := key + 1;
            offset := offset + 1;
          }
        }
      }
    }

    // A key whose body point kills.
    ghost predicate Hit(key: EntityId, id: EntityId, snakes: map<EntityId, Snake>, living: set<EntityId>)
      requires id in snakes && |snakes[id].spine| >= 1 && living <= snakes.Keys
      reads this
    {
      && key in owner && key in point && owner[key] != id && owner[key] in living
      && Touches(snakes[id], snakes[owner[key]], point[key])
    }

    // First living owner of a touching candidate, in candidate order.
    method FindKiller(world: WorldState, id: EntityId, ghost snakes: map<EntityId, Snake>, ghost living: set<EntityId>,
                      ghost deaths: seq<Death>)
      returns (killer: Option<EntityId>)
      requires Roster(world.order, snakes) && id in snakes && |snakes[id].spine| >= 1 && Covers(snakes)
      requires living <= AliveIds(snakes) && Swept(snakes, world.snakes, living, deaths)
      ensures killer.Some? ==> Killer(Grid(hash.cellSize), snakes, id, killer.value, living)
      ensures killer.None? ==> forall k :: !Killer(Grid(hash.cellSize), snakes, id, k, living)
    {
      hide SpatialHash.InBlock, SpatialHash.CellOf, Within, HasAll, Placed, Seen;
      var snake := world.snakes[id];
      var head := Head(snake);
      var candidates := hash.QueryCircle(head.x, head.y, snake.radius + MARGIN);
      var i := 0;
      while i < |candidates|
        invariant 0 <= i <= |candidates|
        invariant forall j :: 0 <= j < i ==> !Hit(candidates[j], id, snakes, living)
      {
        var key := candidates[i];
        i := i + 1;
        if key in owner && owner[key] != id && owner[key] in world.snakes && world.snakes[owner[key]].alive {
          var other := world.snakes[owner[key]];
          var offset := if key in point then point[key] else 0;
          var p := PointAt(other, offset);
          if Within(p, head, snake.radius + other.radius) {
            assert Touches(snakes[id], snakes[owner[key]], offset) && key in candidates;
            CandidateIsSeen(snakes, id, key);
            return Some(owner[key]);
          }
        }
      }
      assert forall key :: Hit(key, id, snakes, living) ==> key !in candidates;
      forall k ensures !Killer(Grid(hash.cellSize), snakes, id, k, living) {
        if Killer(Grid(hash.cellSize), snakes, id, k, living) { var key := KillerIsCandidate(snakes, id, k, living); }
      }
      return None;
    }

    // The victim falls and its killer, if any, is credited.
    method Fell(world: WorldState, n: nat, ghost snakes: map<EntityId, Snake>, deaths: seq<Death>, d: Death)
      returns (next: seq<Death>)
      requires hash.cellSize > 0.0 && n < |world.order| && Roster(world.order, snakes) && Roster(world.order, world.snakes)
      requires Judged(Grid(hash.cellSize), world.order, snakes, world.radius, n, deaths)
      requires var living := Living(Grid(hash.cellSize), world.order, snakes, world.radius, n);
               && Swept(snakes, world.snakes, living, deaths) && world.order[n] in living
               && Just(Grid(hash.cellSize), snakes, world.order[n], living, world.radius, d)
      modifies world`snakes
      ensures Roster(world.order, world.snakes)
      ensures Judged(Grid(hash.cellSize), world.order, snakes, world.radius, n + 1, next)
      ensures Swept(snakes, world.snakes, Living(Grid(hash.cellSize), world.order, snakes, world.radius, n + 1), next)
    {
      hide *;
      OneDeath(Grid(hash.cellSize), world.order, snakes, world.snakes, world.radius, n, deaths, d);
      var id := world.order[n];
      world.snakes := world.snakes[id := world.snakes[id].(alive := false)];
      if d.killer.Some? {
        var other := world.snakes[d.killer.value];
        world.snakes := world.snakes[d.killer.value := other.(kills := other.kills + 1)];
      }
      next := deaths + [d];
    }

    // One snake's turn: the wall first, then the first killer found.
    method TakeTurn(world: WorldState, n: nat, ghost snakes: map<EntityId, Snake>, deaths: seq<Death>) returns (next: seq<Death>)
      requires n < |world.order| && Roster(world.order, snakes) && Roster(world.order, world.snakes) && Covers(snakes)
      requires Judged(Grid(hash.cellSize), world.order, snakes, world.radius, n, deaths)
      requires Swept(snakes, world.snakes, Living(Grid(hash.cellSize), world.order, snakes, world.radius, n), deaths)
      modifies world`snakes
      ensures Roster(world.order, world.snakes)
      ensures Judged(Grid(hash.cellSize), world.order, snakes, world.radius, n + 1, next)
      ensures Swept(snakes, world.snakes, Living(Grid(hash.cellSize), world.order, snakes, world.radius, n + 1), next)
    {
      ghost var view := Grid(hash.cellSize);
      hide *;
      ghost var living := Living(view, world.order, snakes, world.radius, n);
      TurnFacts(view, world.order, snakes, world.snakes, world.radius, n, deaths);
      var id := world.order[n];
      var snake := world.snakes[id];
      if !snake.alive {
        NoDeath(view, world.order, snakes, world.radius, n, deaths);
        return deaths;
      }
      if HitsWall(snake, world.radius) {
        WallIsJust(view, snakes, id, living, world.radius, snake.score);
        next := Fell(world, n, snakes, deaths, Death(id, None, Wall, snake.score));
        return;
      }
      var killer := FindKiller(world, id, snakes, living, deaths);
      if killer.None? {
        NoDeath(view, world.order, snakes, world.radius, n, deaths);
        return deaths;
      }
      KillIsJust(view, snakes, id, killer.value, living, world.radius, snake.score);
      next := Fell(world, n, snakes, deaths, Death(id, killer, Collision, snake.score));
    }

    // The sweep through the grid is the turn-by-turn rule, looking where the query looks.
    method JudgeHeads(world: WorldState) returns (deaths: seq<Death>)
      requires world.Consistent() && Covers(world.snakes)
      modifies world`snakes
      ensures world.Consistent()
      ensures Judged(Grid(hash.cellSize), world.order, old(world.snakes), world.radius, |world.order|, deaths)
      ensures Swept(old(world.snakes), world.snakes,
                    Living(Grid(hash.cellSize), world.order, old(world.snakes), world.radius, |world.order|), deaths)
    {
      hide Living, Judged, Swept, Fit;
      deaths := [];
      ghost var view, snakes := Grid(hash.cellSize), world.snakes;
      SweepStarts(view, world.order, snakes, world.radius);
      for n := 0 to |world.order|
        invariant Roster(world.order, world.snakes)
        invariant Judged(view, world.order, snakes, world.radius, n, deaths)
        invariant Swept(snakes, world.snakes, Living(view, world.order, snakes, world.radius, n), deaths)
      {
        deaths := TakeTurn(world, n, snakes, deaths);
      }
      SweptConsistent(view, world, snakes, deaths);
    }

    // A query's candidates that name a point are brought up, whatever keys collide.
    lemma CandidateIsSeen(snakes: map<EntityId, Snake>, id: EntityId, key: EntityId)
      requires id in snakes && |snakes[id].spine| >= 1 && Covers(snakes)
      requires var head, reach := Head(snakes[id]), snakes[id].radius + MARGIN;
               SpatialHash.InBlock(hash.buckets, key,
                 SpatialHash.CellOf(head.x - reach, hash.cellSize), SpatialHash.CellOf(head.x + reach, hash.cellSize) + 1,
                 SpatialHash.CellOf(head.y - reach, hash.cellSize), SpatialHash.CellOf(head.y + reach, hash.cellSize) + 1)
      ensures key in owner && key in point && owner[key] in snakes && 0 <= point[key] < |snakes[owner[key]].spine|
      ensures Seen(Grid(hash.cellSize), snakes[id], snakes[owner[key]].spine[point[key]])
    {
      hide SpatialHash.CellOf, SpatialHash.CellKey, SpatialHash.KeyAt, HasAll;
      var head, reach := Head(snakes[id]), snakes[id].radius + MARGIN;
      var cx: int, cy: int :| Queried(snakes[id], hash.cellSize, cx, cy) &&
        key in SpatialHash.Bucket(hash.buckets, SpatialHash.CellKey(cx, cy));
      assert key in SpatialHash.Bag(hash.buckets, SpatialHash.CellKey(cx, cy));
    }

    // The candidates miss no killer that the query can see.
    lemma KillerIsCandidate(snakes: map<EntityId, Snake>, id: EntityId, k: EntityId, living: set<EntityId>) returns (key: EntityId)
      requires id in snakes && |snakes[id].spine| >= 1 && Covers(snakes) && living <= AliveIds(snakes)
      requires Killer(Grid(hash.cellSize), snakes, id, k, living) && Entered(snakes[k], k)
      ensures Hit(key, id, snakes, living)
      ensures var head, reach := Head(snakes[id]), snakes[id].radius + MARGIN;
              SpatialHash.InBlock(hash.buckets, key,
                SpatialHash.CellOf(head.x - reach, hash.cellSize), SpatialHash.CellOf(head.x + reach, hash.cellSize) + 1,
                SpatialHash.CellOf(head.y - reach, hash.cellSize), SpatialHash.CellOf(head.y + reach, hash.cellSize) + 1)
    {
      hide SpatialHash.CellOf, SpatialHash.CellKey, SpatialHash.KeyAt, Within, Placed;
      var s, other := snakes[id], snakes[k];
      var offset :| Touches(s, other, offset) && Seen(Grid(hash.cellSize), s, other.spine[offset]);
      assert HasAll(other, |other.spine|) && Has(other, offset);
      key :| Names(owner, point, key, other.id, offset) && Posted(hash.buckets, hash.cellSize, other.spine[offset], key);
      var cx: int, cy: int :| Queried(s, hash.cellSize, cx, cy) &&
        SpatialHash.CellKey(cx, cy) == SpatialHash.KeyAt(other.spine[offset].x, other.spine[offset].y, hash.cellSize);
      assert key in SpatialHash.Bucket(hash.buckets, SpatialHash.CellKey(cx, cy));
    }
  }

  lemma NothingPlaced(cellSize: CellSize, snakes: map<EntityId, Snake>)
    ensures Placed(map[], cellSize, map[], map[], snakes)
  {
  }

  lemma JustPosted(before: map<int, seq<EntityId>>, after: map<int, seq<EntityId>>, cellSize: real, p: Point, key: EntityId)
    requires cellSize > 0.0 && SpatialHash.Added(before, after, SpatialHash.KeyAt(p.x, p.y, cellSize), key)
    ensures Posted(after, cellSize, p, key)
  {
    hide SpatialHash.KeyAt;
  }

  lemma PlacedStays(before: map<int, seq<EntityId>>, after: map<int, seq<EntityId>>, cellSize: CellSize,
                    owner: map<EntityId, EntityId>, point: map<EntityId, int>, snakes: map<EntityId, Snake>,
                    id: EntityId, offset: int, key: EntityId)
    requires Placed(before, cellSize, owner, point, snakes) && key !in owner
    requires id in snakes && 0 <= offset < |snakes[id].spine|
    requires SpatialHash.Added(before, after, KeyOf(snakes[id].spine[offset], cellSize), key)
    ensures Placed(after, cellSize, owner[key := id], point[key := offset], snakes)
  {
    hide KeyOf, SpatialHash.Bag;
  }

  lemma StaysPresent(before: map<int, seq<EntityId>>, after: map<int, seq<EntityId>>, cellSize: real,
                     owner0: map<EntityId, EntityId>, owner: map<EntityId, EntityId>,
                     point0: map<EntityId, int>, point: map<EntityId, int>,
                     t: Snake, o: int, p: Point, key: EntityId)
    requires cellSize > 0.0 && NECK <= o < |t.spine| && Present(before, cellSize, owner0, point0, t, o)
    requires SpatialHash.Added(before, after, SpatialHash.KeyAt(p.x, p.y, cellSize), key)
    requires key !in owner0 && (forall k :: k in owner0 ==> k in owner && owner[k] == owner0[k])
    requires forall k :: k in point0 && k != key ==> k in point && point[k] == point0[k]
    ensures Present(after, cellSize, owner, point, t, o)
  {
    hide SpatialHash.KeyAt, SpatialHash.Bag;
    var k :| Names(owner0, point0, k, t.id, o) && Posted(before, cellSize, t.spine[o], k);
    assert Names(owner, point, k, t.id, o) && Posted(after, cellSize, t.spine[o], k);
  }

  lemma SweptConsistent(view: View, world: WorldState, snakes: map<EntityId, Snake>, deaths: seq<Death>)
    requires Linked(world.order, snakes, world.playerIndex, world.pendingInputs) && AllFit(snakes, world.sqrt)
    requires Edible(world.food) && FreshIds(snakes, world.food, world.nextEntityId) && Roster(world.order, world.snakes)
    requires Swept(snakes, world.snakes, Living(view, world.order, snakes, world.radius, |world.order|), deaths)
    ensures world.Consistent()
  {
    hide Living, KillsOf;
    forall id | id in world.snakes ensures Fit(world.snakes[id], world.sqrt) {
      assert id in snakes && Fit(snakes[id], world.sqrt);
    }
    forall id: EntityId | id in snakes ensures id in world.snakes && world.snakes[id].playerId == snakes[id].playerId {}
  }

  lemma SweepStarts(view: View, order: seq<EntityId>, snakes: map<EntityId, Snake>, radius: real)
    requires Roster(order, snakes)
    ensures Judged(view, order, snakes, radius, 0, []) && Swept(snakes, snakes, Living(view, order, snakes, radius, 0), [])
  {
  }

  lemma TurnFacts(view: View, order: seq<EntityId>, before: map<EntityId, Snake>, now: map<EntityId, Snake>, radius: real,
                  n: nat, deaths: seq<Death>)
    requires Roster(order, before) && Roster(order, now) && n < |order|
    requires Swept(before, now, Living(view, order, before, radius, n), deaths)
    ensures order[n] in before && order[n] in now && |before[order[n]].spine| >= 1
    ensures var id, living := order[n], Living(view, order, before, radius, n);
            && living <= AliveIds(before) && living <= before.Keys == now.Keys
            && now[id].score == before[id].score && now[id].spine == before[id].spine
            && now[id].alive == (id in living) && HitsWall(now[id], radius) == HitsWall(before[id], radius)
  {
    LivingShrinks(view, order, before, radius, 0, n);
  }

  lemma NoDeath(view: View, order: seq<EntityId>, before: map<EntityId, Snake>, radius: real, n: nat, deaths: seq<Death>)
    requires Roster(order, before) && n < |order| && Judged(view, order, before, radius, n, deaths)
    requires order[n] in before && |before[order[n]].spine| >= 1
    requires var id, living := order[n], Living(view, order, before, radius, n);
             id in living ==> !HitsWall(before[id], radius) && forall k :: !Killer(view, before, id, k, living)
    ensures Judged(view, order, before, radius, n + 1, deaths)
    ensures Living(view, order, before, radius, n + 1) == Living(view, order, before, radius, n)
  {
    hide Contact, HitsWall;
  }

  lemma WallIsJust(view: View, snakes: map<EntityId, Snake>, id: EntityId, living: set<EntityId>, radius: real, score: int)
    requires id in snakes && |snakes[id].spine| >= 1 && living <= snakes.Keys
    requires HitsWall(snakes[id], radius) && score == snakes[id].score
    ensures Just(view, snakes, id, living, radius, Death(id, None, Wall, score))
  {
  }

  lemma KillIsJust(view: View, snakes: map<EntityId, Snake>, id: EntityId, killer: EntityId, living: set<EntityId>,
                   radius: real, score: int)
    requires id in snakes && |snakes[id].spine| >= 1 && living <= snakes.Keys && score == snakes[id].score
    requires !HitsWall(snakes[id], radius) && Killer(view, snakes, id, killer, living)
    ensures Just(view, snakes, id, living, radius, Death(id, Some(killer), Collision, score))
  {
  }

  lemma OneDeath(view: View, order: seq<EntityId>, before: map<EntityId, Snake>, now: map<EntityId, Snake>, radius: real, n: nat,
                 deaths: seq<Death>, d: Death)
    requires Roster(order, before) && Roster(order, now) && n < |order| && Judged(view, order, before, radius, n, deaths)
    requires var living := Living(view, order, before, radius, n);
             && Swept(before, now, living, deaths) && order[n] in living
             && Just(view, before, order[n], living, radius, d)
    ensures order[n] in now && (d.killer.Some? ==> d.killer.value in now)
    ensures var fallen := now[order[n] := now[order[n]].(alive := false)];
            var after := if d.killer.None? then fallen
                         else fallen[d.killer.value := fallen[d.killer.value].(kills := fallen[d.killer.value].kills + 1)];
            && Judged(view, order, before, radius, n + 1, deaths + [d]) && Roster(order, after) && after.Keys == before.Keys
            && Swept(before, after, Living(view, order, before, radius, n + 1), deaths + [d])
  {
    hide Contact;
    assert (deaths + [d])[..|deaths|] == deaths;
    LivingShrinks(view, order, before, radius, 0, n);
  }

}
