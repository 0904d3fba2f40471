// One tick of movement: turning, boosting and laying the body down.
module Movement {
  import opened Feeding
  import opened Geometry
  import opened Numbers
  import opened Snakes
  import opened World
  import Spine
  import Steering

  const BASE_SPEED: real := 220.0
  const BOOST_SPEED_MULTIPLIER: real := 1.9
  const BOOST_MASS_DRAIN_PER_SECOND: real := 4.0
  const MIN_BOOST_MASS: real := 20.0
  const MAX_TURN_RATE_RAD_PER_SEC: real := 4.2

  predicate CanBoost(s: Snake) {
    s.boosting && s.mass > MIN_BOOST_MASS
  }

  function Speed(s: Snake): real {
    BASE_SPEED * (if CanBoost(s) then BOOST_SPEED_MULTIPLIER else 1.0)
  }

  // The distance of a tick.
  function Distance(s: Snake, dt: real): real {
    Speed(s) * dt
  }

  function Turned(s: Snake, dt: real): Snake {
    s.(angle := Steering.Steered(s.angle, s.targetAngle, MAX_TURN_RATE_RAD_PER_SEC * dt))
  }

  // Boosting runs up a debt, paid in whole units of mass.
  function Burnt(s: Snake, dt: real, sqrt: real -> real): Snake {
    if !CanBoost(s) then s
    else
      var debt := s.boostDebt + BOOST_MASS_DRAIN_PER_SECOND * dt;
      if debt < 1.0 then s.(boostDebt := debt)
      else SetMass(s.(boostDebt := debt - debt.Floor as real), s.mass - debt.Floor as real, sqrt)
  }

  // The head arrives; its place is recorded once a spacing has been travelled.
  function Laid(s: Snake, next: Point, distance: real): Snake {
    var travelled := s.sinceLastPoint + distance;
    var body := Spine.Body(s.spine, s.mass);
    if travelled >= SEGMENT_SPACING then
      s.(sinceLastPoint := travelled - SEGMENT_SPACING, spine := Spine.Applied(body, Spine.Push(next)).spine)
    else
      s.(sinceLastPoint := travelled, spine := Spine.Applied(body, Spine.Slide(next)).spine)
  }

  function Ahead(s: Snake, distance: real, cos: real -> real, sin: real -> real): Point
    requires |s.spine| >= 1
  {
    Point(Head(s).x + cos(s.angle) * distance, Head(s).y + sin(s.angle) * distance)
  }

  // The speed is settled before the boost is paid for.
  function Moved(s: Snake, dt: real, sqrt: real -> real, cos: real -> real, sin: real -> real): Snake
    requires |s.spine| >= 1
  {
    var turned := Turned(s, dt);
    var burnt := Burnt(turned, dt, sqrt);
    BurntKeepsHead(turned, dt, sqrt);
    var distance := Distance(turned, dt);
    Laid(burnt, Ahead(burnt, distance, cos, sin), distance)
  }

  lemma BurntKeepsHead(s: Snake, dt: real, sqrt: real -> real)
    requires |s.spine| >= 1
    ensures |Burnt(s, dt, sqrt).spine| >= 1 && Head(Burnt(s, dt, sqrt)) == Head(s)
  {
    if CanBoost(s) {
      var debt := s.boostDebt + BOOST_MASS_DRAIN_PER_SECOND * dt;
      LengthBounds(Max(1.0, s.mass - debt.Floor as real));
    }
  }

  // The same snake, as much of a snake as before, and no heavier.
  lemma MovedKeeps(s: Snake, dt: real, sqrt: real -> real, cos: real -> real, sin: real -> real)
    requires Fit(s, sqrt)
    ensures var m := Moved(s, dt, sqrt, cos, sin);
            && Fit(m, sqrt) && SameSnake(m, s) && m.mass <= s.mass
            && m.mass == Burnt(s, dt, sqrt).mass && m.boostDebt == Burnt(s, dt, sqrt).boostDebt
  {
    var turned := Turned(s, dt);
    TurnedKeeps(s, dt, sqrt);
    BurntKeeps(turned, dt, sqrt);
    BurntKeepsHead(turned, dt, sqrt);
    var burnt, distance := Burnt(turned, dt, sqrt), Distance(turned, dt);
    hide Fit, Turned, Burnt, Laid, Ahead;
    LaidKeeps(burnt, Ahead(burnt, distance, cos, sin), distance, sqrt);
  }

  // What no part of a tick's movement touches.
  ghost predicate SameSnake(a: Snake, b: Snake) {
    && a.id == b.id && a.playerId == b.playerId && a.alive == b.alive && a.kills == b.kills
    && a.targetAngle == b.targetAngle && a.boosting == b.boosting && a.lastAckSeq == b.lastAckSeq
  }

  lemma TurnedKeeps(s: Snake, dt: real, sqrt: real -> real)
    requires Fit(s, sqrt)
    ensures Fit(Turned(s, dt), sqrt) && SameSnake(Turned(s, dt), s) && Turned(s, dt).mass == s.mass
    ensures Burnt(Turned(s, dt), dt, sqrt).mass == Burnt(s, dt, sqrt).mass
    ensures Burnt(Turned(s, dt), dt, sqrt).boostDebt == Burnt(s, dt, sqrt).boostDebt
  {
    hide Steering.Steered, LengthForMass, RadiusForMass, ScoreForMass;
  }

  lemma LaidKeeps(s: Snake, next: Point, distance: real, sqrt: real -> real)
    requires Fit(s, sqrt)
    ensures var l := Laid(s, next, distance);
            Fit(l, sqrt) && SameSnake(l, s) && l.mass == s.mass && l.boostDebt == s.boostDebt
  {
    LengthBounds(s.mass);
    hide LengthForMass, RadiusForMass, ScoreForMass;
  }

  lemma BurntKeeps(s: Snake, dt: real, sqrt: real -> real)
    requires Fit(s, sqrt)
    ensures Fit(Burnt(s, dt, sqrt), sqrt) && SameSnake(Burnt(s, dt, sqrt), s) && Burnt(s, dt, sqrt).mass <= s.mass
  {
    if CanBoost(s) {
      var debt := s.boostDebt + BOOST_MASS_DRAIN_PER_SECOND * dt;
      if debt >= 1.0 { SetMassFits(s.(boostDebt := debt - debt.Floor as real), s.mass - debt.Floor as real, sqrt); }
    }
  }

  // ---- What boosting costs -------------------------------------------------

  // A snake that keeps boosting, its other fields aside.
  function Burning(s: Snake, dt: real, sqrt: real -> real, n: nat): Snake {
    if n == 0 then s else Burnt(Burning(s, dt, sqrt, n - 1), dt, sqrt)
  }

  // The debt run up by boosting for n ticks, were none of it paid.
  function Owed(s: Snake, dt: real, n: nat): real {
    s.boostDebt + Times(n, BOOST_MASS_DRAIN_PER_SECOND * dt)
  }

  lemma OwedNext(s: Snake, dt: real, n: nat)
    requires n > 0
    ensures Owed(s, dt, n) == Owed(s, dt, n - 1) + BOOST_MASS_DRAIN_PER_SECOND * dt
    ensures Owed(s, dt, 0) == s.boostDebt
  {
    OneMore(n, BOOST_MASS_DRAIN_PER_SECOND * dt);
    hide Times;
  }

  // Boosting for n ticks of up to a second costs the whole part of that debt and
  // carries the rest: the floor at mass 1 never forgives any of it.
  lemma {:induction false} BoostCost(s: Snake, dt: real, sqrt: real -> real, n: nat)
    requires 0.0 < dt <= 1.0 && 0.0 <= s.boostDebt < 1.0
    requires forall k :: 0 <= k < n ==> CanBoost(Burning(s, dt, sqrt, k))
    ensures Burning(s, dt, sqrt, n).mass == s.mass - Owed(s, dt, n).Floor as real
    ensures Burning(s, dt, sqrt, n).boostDebt == Owed(s, dt, n) - Owed(s, dt, n).Floor as real
  {
    if n > 0 {
      var before := Burning(s, dt, sqrt, n - 1);
      BoostCost(s, dt, sqrt, n - 1);
      OwedNext(s, dt, n);
      hide Owed;
      BurnOnce(before, dt, sqrt);
      FloorCarries(Owed(s, dt, n - 1), BOOST_MASS_DRAIN_PER_SECOND * dt);
      assert Burning(s, dt, sqrt, n) == Burnt(before, dt, sqrt);
      hide *;
    }
  }

  lemma FloorCarries(owed: real, each: real)
    ensures (owed - owed.Floor as real + each).Floor == (owed + each).Floor - owed.Floor
  {
  }

  lemma BurnOnce(s: Snake, dt: real, sqrt: real -> real)
    requires CanBoost(s) && 0.0 < dt <= 1.0 && 0.0 <= s.boostDebt < 1.0
    ensures var debt, b := s.boostDebt + BOOST_MASS_DRAIN_PER_SECOND * dt, Burnt(s, dt, sqrt);
            b.mass == s.mass - debt.Floor as real && b.boostDebt == debt - debt.Floor as real
  {
  }

  // ---- How many points are laid --------------------------------------------

  // The distance carried over, and the points recorded, after n ticks of d each.
  function Since(since: real, d: real, n: nat): real {
    if n == 0 then since
    else
      var travelled := Since(since, d, n - 1) + d;
      if travelled >= SEGMENT_SPACING then travelled - SEGMENT_SPACING else travelled
  }

  function Recorded(since: real, d: real, n: nat): nat {
    if n == 0 then 0
    else Recorded(since, d, n - 1) + (if Since(since, d, n - 1) + d >= SEGMENT_SPACING then 1 else 0)
  }

  // The spacings completed by this much travel.
  function Due(since: real, d: real, n: nat): int {
    ((since + Times(n, d)) / SEGMENT_SPACING).Floor
  }

  // A tick lays the body by this account.
  lemma LaidByAccount(s: Snake, next: Point, d: real)
    requires |s.spine| >= 1
    ensures Laid(s, next, d).sinceLastPoint == Since(s.sinceLastPoint, d, 1)
    ensures Laid(s, next, d).spine == if Recorded(s.sinceLastPoint, d, 1) == 1
              then Spine.Clipped([next] + s.spine, Spine.Capacity(s.mass)) else s.spine[0 := next]
  {
    assert Since(s.sinceLastPoint, d, 0) == s.sinceLastPoint && Recorded(s.sinceLastPoint, d, 0) == 0;
  }

  // Nothing travelled is lost: it is recorded or carried over.
  lemma {:induction false} TravelBalances(since: real, d: real, n: nat)
    ensures Since(since, d, n) + Recorded(since, d, n) as real * SEGMENT_SPACING == since + Times(n, d)
  {
    if n > 0 {
      TravelBalances(since, d, n - 1);
      OneMore(n, d);
      hide Times;
    }
  }

  // A tick no longer than a spacing keeps up.
  lemma {:induction false} KeepsUp(since: real, d: real, n: nat)
    requires 0.0 <= since < SEGMENT_SPACING && 0.0 <= d <= SEGMENT_SPACING
    ensures 0.0 <= Since(since, d, n) < SEGMENT_SPACING && Recorded(since, d, n) == Due(since, d, n)
  {
    if n > 0 { KeepsUp(since, d, n - 1); }
    TravelBalances(since, d, n);
    hide Times;
    var carried := (since + Times(n, d)) / SEGMENT_SPACING;
    assert carried == Recorded(since, d, n) as real + Since(since, d, n) / SEGMENT_SPACING;
  }

  // A longer one records at every tick and falls ever further behind.
  lemma {:induction false} FallsBehind(since: real, d: real, n: nat)
    requires 0.0 <= since && d >= SEGMENT_SPACING
    ensures Recorded(since, d, n) == n && Since(since, d, n) == since + Times(n, d - SEGMENT_SPACING)
  {
    if n > 0 {
      FallsBehind(since, d, n - 1);
      OneMore(n, d - SEGMENT_SPACING);
      TimesNotNegative(n - 1, d - SEGMENT_SPACING);
      hide Times;
    }
  }

  ghost predicate KeepsCount(d: real) {
    forall since: real, n: nat :: 0.0 <= since < SEGMENT_SPACING ==> Recorded(since, d, n) == Due(since, d, n)
  }

  // The number of points keeps up with the travel exactly when a tick is no longer
  // than a spacing. How far apart they lie is another matter: see `Spacing`.
  lemma CountKeptIff(d: real)
    requires d >= 0.0
    ensures KeepsCount(d) <==> d <= SEGMENT_SPACING
  {
    if d <= SEGMENT_SPACING {
      forall since: real, n: nat | 0.0 <= since < SEGMENT_SPACING ensures Recorded(since, d, n) == Due(since, d, n) {
        KeepsUp(since, d, n);
      }
    } else {
      var n := Archimedes(d - SEGMENT_SPACING, SEGMENT_SPACING);
      FallsBehind(0.0, d, n);
      TimesAdds(n, d - SEGMENT_SPACING, SEGMENT_SPACING);
      assert Times(n, SEGMENT_SPACING) == n as real * SEGMENT_SPACING && d - SEGMENT_SPACING + SEGMENT_SPACING == d;
      hide Times;
      assert (0.0 + Times(n, d)) / SEGMENT_SPACING >= (n + 1) as real;
      assert Recorded(0.0, d, n) != Due(0.0, d, n);
    }
  }

  // For a cruising snake that takes 19 ticks a second, for a boosting one 35.
  lemma TickRatesKeepCount(s: Snake, rate: int)
    requires rate >= 1
    ensures KeepsCount(Distance(s, DtSeconds(rate))) <==> rate >= (if CanBoost(s) then 35 else 19)
  {
    hide KeepsCount;
    DistanceIff(Speed(s), rate);
    CountKeptIff(Distance(s, DtSeconds(rate)));
  }

  function DtSeconds(tickRateHz: int): (dt: real)
    requires tickRateHz >= 1
    ensures 0.0 < dt <= 1.0
  {
    1.0 / tickRateHz as real
  }

  lemma DistanceIff(speed: real, rate: int)
    requires rate >= 1 && speed >= 0.0
    ensures 0.0 <= speed * DtSeconds(rate)
    ensures speed * DtSeconds(rate) <= SEGMENT_SPACING <==> speed <= SEGMENT_SPACING * rate as real
  {
    var dt, r := DtSeconds(rate), rate as real;
    assert dt * r == 1.0;
    hide DtSeconds;
    assert speed * dt * r == speed * (dt * r);
    NotNegative(speed, dt);
    QuotientIff(speed * dt, r, speed, SEGMENT_SPACING);
  }

  lemma QuotientIff(d: real, r: real, product: real, bound: real)
    requires r > 0.0 && d * r == product
    ensures d <= bound <==> product <= bound * r
  {
    if d < bound { ProductsGrow(d, bound, r); }
    if d > bound { ProductsGrow(bound, d, r); }
  }

  // ---- The phase -----------------------------------------------------------

  method BurnSnake(s: Snake, canBoost: bool, dt: real, sqrt: real -> real) returns (snake: Snake)
    requires canBoost == CanBoost(s)
    ensures snake == Burnt(s, dt, sqrt)
  {
    hide LengthForMass, RadiusForMass, ScoreForMass;
    snake := s;
    if canBoost {
      snake := snake.(boostDebt := snake.boostDebt + BOOST_MASS_DRAIN_PER_SECOND * dt);
      if snake.boostDebt >= 1.0 {
        var drained := snake.boostDebt.Floor;
        snake := snake.(boostDebt := snake.boostDebt - drained as real);
        snake := SetMass(snake, snake.mass - drained as real, sqrt);
      }
    }
  }

  method LaySnake(s: Snake, next: Point, distance: real) returns (snake: Snake)
    requires |s.spine| >= 1
    ensures snake == Laid(s, next, distance)
  {
    hide LengthForMass;
    snake := s.(sinceLastPoint := s.sinceLastPoint + distance);
    if snake.sinceLastPoint >= SEGMENT_SPACING {
      snake := snake.(sinceLastPoint := snake.sinceLastPoint - SEGMENT_SPACING);
      snake := snake.(spine := Spine.Clipped([next] + snake.spine, Spine.Capacity(snake.mass)));
    } else {
      snake := snake.(spine := snake.spine[0 := next]);
    }
  }

  method MoveSnake(s: Snake, dt: real, sqrt: real -> real, cos: real -> real, sin: real -> real) returns (snake: Snake)
    requires |s.spine| >= 1
    ensures snake == Moved(s, dt, sqrt, cos, sin)
  {
    hide Burnt, Laid, Ahead, Turned, Distance, CanBoost;
    snake := Turned(s, dt);
    TurnedBody(s, dt);
    BurntKeepsHead(snake, dt, sqrt);
    var canBoost := CanBoost(snake);
    var distance := Distance(snake, dt);
    snake := BurnSnake(snake, canBoost, dt, sqrt);
    snake := LaySnake(snake, Ahead(snake, distance, cos, sin), distance);
  }

  lemma TurnedBody(s: Snake, dt: real)
    ensures Turned(s, dt).spine == s.spine
  {
  }

  // Living snakes move; the dead lie still.
  function MovedOn(s: Snake, dt: real, sqrt: real -> real, cos: real -> real, sin: real -> real): Snake {
    if s.alive && |s.spine| >= 1 then Moved(s, dt, sqrt, cos, sin) else s
  }

  function AllMoved(snakes: map<EntityId, Snake>, dt: real, sqrt: real -> real, cos: real -> real, sin: real -> real):
      map<EntityId, Snake> {
    map id | id in snakes :: MovedOn(snakes[id], dt, sqrt, cos, sin)
  }

  method MoveSnakes(world: WorldState)
    requires world.Consistent() && world.tickRateHz >= 1
    modifies world`snakes
    ensures world.Consistent()
    ensures world.snakes == AllMoved(old(world.snakes), DtSeconds(world.tickRateHz), world.sqrt, world.cos, world.sin)
  {
    var dt, order := DtSeconds(world.tickRateHz), world.order;
    ghost var snakes, sqrt, cos, sin := world.snakes, world.sqrt, world.cos, world.sin;
    assert Linked(order, snakes, world.playerIndex, world.pendingInputs) && AllFit(snakes, sqrt);
    assert Edible(world.food) && FreshIds(snakes, world.food, world.nextEntityId);
    assert MovedSoFar(order, snakes, world.snakes, 0, dt, sqrt, cos, sin);
    hide Linked, AllFit, Edible, FreshIds, Moved, MovedOn, MovedSoFar, Fit, Roster;
    for n := 0 to |order|
      invariant Linked(order, world.snakes, world.playerIndex, world.pendingInputs) && AllFit(world.snakes, sqrt)
      invariant Edible(world.food) && FreshIds(world.snakes, world.food, world.nextEntityId)
      invariant MovedSoFar(order, snakes, world.snakes, n, dt, sqrt, cos, sin)
    {
      NextMoves(world, snakes, n, dt);
      var id := order[n];
      if world.snakes[id].alive {
        var snake := MoveSnake(world.snakes[id], dt, world.sqrt, world.cos, world.sin);
        world.snakes := world.snakes[id := snake];
      }
    }
    EveryoneMoved(order, snakes, world.snakes, world.playerIndex, world.pendingInputs, dt, sqrt, cos, sin);
  }

  ghost predicate MovedSoFar(order: seq<EntityId>, before: map<EntityId, Snake>, now: map<EntityId, Snake>, n: nat, dt: real,
                             sqrt: real -> real, cos: real -> real, sin: real -> real) {
    && before.Keys == now.Keys
    && (forall j :: 0 <= j < |order| ==> order[j] in before && order[j] in now)
    && (forall j :: 0 <= j < n && j < |order| ==> now[order[j]] == MovedOn(before[order[j]], dt, sqrt, cos, sin))
    && (forall j :: n <= j < |order| ==> now[order[j]] == before[order[j]])
  }

  lemma NextMoves(world: WorldState, before: map<EntityId, Snake>, n: nat, dt: real)
    requires Linked(world.order, world.snakes, world.playerIndex, world.pendingInputs) && AllFit(world.snakes, world.sqrt)
    requires FreshIds(world.snakes, world.food, world.nextEntityId) && n < |world.order|
    requires MovedSoFar(world.order, before, world.snakes, n, dt, world.sqrt, world.cos, world.sin)
    ensures world.order[n] in world.snakes && |world.snakes[world.order[n]].spine| >= 1
    ensures var s := world.snakes[world.order[n]];
            var now := if s.alive then world.snakes[world.order[n] := Moved(s, dt, world.sqrt, world.cos, world.sin)]
                       else world.snakes;
            && Linked(world.order, now, world.playerIndex, world.pendingInputs) && AllFit(now, world.sqrt)
            && FreshIds(now, world.food, world.nextEntityId)
            && MovedSoFar(world.order, before, now, n + 1, dt, world.sqrt, world.cos, world.sin)
  {
    var id := world.order[n];
    var s := world.snakes[id];
    assert Entered(s, id) && Fit(s, world.sqrt);
    MovedKeeps(s, dt, world.sqrt, world.cos, world.sin);
    var moved := Moved(s, dt, world.sqrt, world.cos, world.sin);
    assert Entered(moved, id) && Fit(moved, world.sqrt);
    SoFarNext(world.order, before, world.snakes, world.playerIndex, world.pendingInputs, n, dt, world.sqrt, world.cos, world.sin);
    hide Moved, Fit, Linked, MovedSoFar;
    LinkKeeps(world.order, world.snakes, world.playerIndex, world.pendingInputs, id, moved);
  }

  lemma SoFarNext(order: seq<EntityId>, before: map<EntityId, Snake>, now: map<EntityId, Snake>,
                  playerIndex: map<string, EntityId>, pendingInputs: map<EntityId, seq<Command>>, n: nat, dt: real,
                  sqrt: real -> real, cos: real -> real, sin: real -> real)
    requires Linked(order, now, playerIndex, pendingInputs) && n < |order|
    requires MovedSoFar(order, before, now, n, dt, sqrt, cos, sin)
    ensures order[n] in now
    ensures MovedSoFar(order, before, now[order[n] := MovedOn(now[order[n]], dt, sqrt, cos, sin)], n + 1, dt, sqrt, cos, sin)
    ensures !now[order[n]].alive ==> now == now[order[n] := MovedOn(now[order[n]], dt, sqrt, cos, sin)]
  {
    hide Moved, Entered;
  }

  lemma EveryoneMoved(order: seq<EntityId>, before: map<EntityId, Snake>, now: map<EntityId, Snake>,
                      playerIndex: map<string, EntityId>, pendingInputs: map<EntityId, seq<Command>>, dt: real,
                      sqrt: real -> real, cos: real -> real, sin: real -> real)
    requires Linked(order, now, playerIndex, pendingInputs) && MovedSoFar(order, before, now, |order|, dt, sqrt, cos, sin)
    ensures now == AllMoved(before, dt, sqrt, cos, sin)
  {
    hide MovedOn, Entered;
    forall id: EntityId | id in now ensures id in before && now[id] == MovedOn(before[id], dt, sqrt, cos, sin) {
      assert id in order;
      var j :| 0 <= j < |order| && order[j] == id;
    }
  }
}
