// A room's membership, eliminations and final standings.
module Room {
  import opened Options
  import opened Standings

  datatype Tally = Tally(score: int, kills: int)
  datatype Elimination = Elimination(order: int, survivedMs: int)
  datatype Death = Death(victim: PlayerId, finalScore: int)

  // `snakes` is what the world still holds, dead or alive, by player.
  datatype State = State(entrants: seq<PlayerId>, seats: set<PlayerId>, snakes: map<PlayerId, Tally>,
                         eliminations: map<PlayerId, Elimination>, counter: int, finals: map<PlayerId, Tally>)

  const EMPTY: State := State([], {}, map[], map[], 0, map[])

  // ---- The events, as functions of the state -------------------------------

  function Joined(s: State, p: PlayerId): State {
    if p in s.seats then s
    else s.(seats := s.seats + {p}, entrants := if p in s.entrants then s.entrants else s.entrants + [p],
            snakes := if p in s.snakes then s.snakes else s.snakes[p := Tally(0, 0)])
  }

  // Only a player's first elimination counts.
  function Eliminated(s: State, p: PlayerId, elapsedMs: int): State {
    if p in s.eliminations then s
    else s.(counter := s.counter + 1, eliminations := s.eliminations[p := Elimination(s.counter + 1, elapsedMs)])
  }

  function Left(s: State, p: PlayerId, elapsedMs: int): State {
    if p !in s.seats then s
    else
      var scored := if p !in s.eliminations && p in s.snakes then s.(finals := s.finals[p := s.snakes[p]]) else s;
      Eliminated(scored, p, elapsedMs).(seats := s.seats - {p}, snakes := s.snakes - {p})
  }

  function Died(s: State, d: Death, elapsedMs: int): State {
    var kills := if d.victim in s.snakes then s.snakes[d.victim].kills else 0;
    Eliminated(s.(finals := s.finals[d.victim := Tally(d.finalScore, kills)]), d.victim, elapsedMs)
  }

  function AllDied(s: State, deaths: seq<Death>, elapsedMs: int): State {
    if deaths == [] then s else Died(AllDied(s, deaths[..|deaths| - 1], elapsedMs), deaths[|deaths| - 1], elapsedMs)
  }

  function Respawned(s: State, p: PlayerId): State {
    if p !in s.seats then s else s.(snakes := s.snakes[p := Tally(0, 0)])
  }

  // A tick moves the world, then records its deaths.
  datatype Event =
    | Join(player: PlayerId)
    | Leave(player: PlayerId, elapsedMs: int)
    | Tick(snakes: map<PlayerId, Tally>, deaths: seq<Death>, elapsedMs: int)
    | Respawn(player: PlayerId)

  // The world keeps its snakes through a tick, and only they die.
  predicate Possible(s: State, e: Event) {
    e.Tick? ==> e.snakes.Keys == s.snakes.Keys && forall i :: 0 <= i < |e.deaths| ==> e.deaths[i].victim in s.snakes
  }

  function Next(s: State, e: Event): State {
    match e
    case Join(p) => Joined(s, p)
    case Leave(p, ms) => Left(s, p, ms)
    case Tick(snakes, deaths, ms) => AllDied(s.(snakes := snakes), deaths, ms)
    case Respawn(p) => Respawned(s, p)
  }

  ghost predicate Runs(s: State, events: seq<Event>, t: State)
    decreases |events|
  {
    if events == [] then t == s
    else Possible(s, events[0]) && Runs(Next(s, events[0]), events[1..], t)
  }

  // ---- What every run keeps ------------------------------------------------

  // Entrants are distinct and include everyone seated or eliminated.
  ghost predicate Seated(entrants: seq<PlayerId>, seats: set<PlayerId>, present: set<PlayerId>, out: set<PlayerId>) {
    && (forall i, j :: 0 <= i < j < |entrants| ==> entrants[i] != entrants[j])
    && present == seats && (forall p :: p in seats ==> p in entrants) && (forall p :: p in out ==> p in entrants)
  }

  // Elimination numbers are distinct and count up from one.
  ghost predicate Numbered(eliminations: map<PlayerId, Elimination>, counter: int) {
    && |eliminations| == counter
    && (forall p :: p in eliminations ==> 1 <= eliminations[p].order <= counter)
    && (forall p, q :: p in eliminations && q in eliminations && p != q ==> eliminations[p].order != eliminations[q].order)
  }

  ghost predicate Valid(s: State) {
    Seated(s.entrants, s.seats, s.snakes.Keys, s.eliminations.Keys) && Numbered(s.eliminations, s.counter)
  }

  lemma NumberNext(eliminations: map<PlayerId, Elimination>, counter: int, p: PlayerId, ms: int)
    requires Numbered(eliminations, counter) && p !in eliminations
    ensures Numbered(eliminations[p := Elimination(counter + 1, ms)], counter + 1)
  {
  }

  lemma EliminatedKeeps(s: State, p: PlayerId, elapsedMs: int)
    requires Valid(s) && p in s.entrants
    ensures Valid(Eliminated(s, p, elapsedMs)) && Extends(s, Eliminated(s, p, elapsedMs))
    ensures p in Eliminated(s, p, elapsedMs).eliminations
  {
    hide Numbered;
    if p !in s.eliminations { NumberNext(s.eliminations, s.counter, p, elapsedMs); }
    assert Numbered(s.eliminations, s.counter);
    InRange(s);
  }

  lemma InRange(s: State)
    requires Numbered(s.eliminations, s.counter)
    ensures forall p :: p in s.eliminations ==> 1 <= s.eliminations[p].order <= s.counter
  {
  }

  // Eliminations are never rewritten, and new ones rank ahead of all old ones.
  ghost predicate Grows(before: map<PlayerId, Elimination>, m: int, after: map<PlayerId, Elimination>, n: int) {
    && m <= n && (forall p :: p in before ==> p in after && after[p] == before[p])
    && (forall p :: p in after && p !in before ==> after[p].order > m)
  }

  ghost predicate Extends(s: State, t: State) {
    Grows(s.eliminations, s.counter, t.eliminations, t.counter) && forall p :: p in s.entrants ==> p in t.entrants
  }

  lemma ExtendsTransitive(s: State, t: State, u: State)
    requires Extends(s, t) && Extends(t, u)
    ensures Extends(s, u)
  {
  }

  lemma {:induction false} DeathsKeep(s: State, deaths: seq<Death>, elapsedMs: int)
    requires Valid(s) && forall i :: 0 <= i < |deaths| ==> deaths[i].victim in s.snakes
    ensures var t := AllDied(s, deaths, elapsedMs);
            Valid(t) && Extends(s, t) && t.entrants == s.entrants && t.seats == s.seats && t.snakes == s.snakes
  {
    if deaths != [] {
      var rest, d := deaths[..|deaths| - 1], deaths[|deaths| - 1];
      DeathsKeep(s, rest, elapsedMs);
      var before := AllDied(s, rest, elapsedMs);
      assert d.victim in before.entrants;
      hide Valid, Extends, Died;
      DeathKeeps(before, d, elapsedMs);
      ExtendsTransitive(s, before, Died(before, d, elapsedMs));
    }
  }

  // Everyone a tick reports dead is out.
  lemma {:induction false} VictimsOut(s: State, deaths: seq<Death>, elapsedMs: int, i: nat)
    requires i < |deaths|
    ensures deaths[i].victim in AllDied(s, deaths, elapsedMs).eliminations
    decreases |deaths|
  {
    if i < |deaths| - 1 { VictimsOut(s, deaths[..|deaths| - 1], elapsedMs, i); }
  }

  lemma DeathKeeps(s: State, d: Death, elapsedMs: int)
    requires Valid(s) && d.victim in s.entrants
    ensures var t := Died(s, d, elapsedMs);
            && Valid(t) && Extends(s, t) && t.entrants == s.entrants && t.seats == s.seats && t.snakes == s.snakes
            && d.victim in t.eliminations
  {
    var kills := if d.victim in s.snakes then s.snakes[d.victim].kills else 0;
    var scored := s.(finals := s.finals[d.victim := Tally(d.finalScore, kills)]);
    hide Seated, Numbered, Grows;
    EliminatedKeeps(scored, d.victim, elapsedMs);
  }

  lemma NextKeeps(s: State, e: Event)
    requires Valid(s) && Possible(s, e)
    ensures Valid(Next(s, e)) && Extends(s, Next(s, e))
  {
    hide Numbered;
    match e
    case Join(p) => JoinKeeps(s, p);
    case Leave(p, ms) => LeaveKeeps(s, p, ms);
    case Tick(snakes, deaths, ms) => DeathsKeep(s.(snakes := snakes), deaths, ms);
    case Respawn(p) => assert p in s.seats ==> Respawned(s, p).snakes.Keys == s.snakes.Keys;
  }

  lemma JoinKeeps(s: State, p: PlayerId)
    requires Valid(s)
    ensures Valid(Joined(s, p)) && Extends(s, Joined(s, p))
  {
    hide Numbered;
  }

  lemma LeaveKeeps(s: State, p: PlayerId, ms: int)
    requires Valid(s)
    ensures Valid(Left(s, p, ms)) && Extends(s, Left(s, p, ms))
  {
    hide Numbered;
    if p in s.seats {
      var scored := if p !in s.eliminations && p in s.snakes then s.(finals := s.finals[p := s.snakes[p]]) else s;
      EliminatedKeeps(scored, p, ms);
    }
  }

  lemma {:induction false} RunKeeps(s: State, events: seq<Event>, t: State)
    requires Valid(s) && Runs(s, events, t)
    ensures Valid(t) && Extends(s, t)
    decreases |events|
  {
    if events != [] {
      NextKeeps(s, events[0]);
      RunKeeps(Next(s, events[0]), events[1..], t);
    }
  }

  // ---- Standings -----------------------------------------------------------

  function RowOf(s: State, p: PlayerId, matchMs: int): Row {
    var tally := if p in s.snakes then s.snakes[p] else if p in s.finals then s.finals[p] else Tally(0, 0);
    if p in s.eliminations then Row(p, tally.score, tally.kills, s.eliminations[p].survivedMs, Some(s.eliminations[p].order))
    else Row(p, tally.score, tally.kills, matchMs, None)
  }

  function RowsFor(s: State, players: seq<PlayerId>, matchMs: int): seq<Row> {
    seq(|players|, i requires 0 <= i < |players| => RowOf(s, players[i], matchMs))
  }

  function RowsOf(s: State, matchMs: int): seq<Row> { RowsFor(s, s.entrants, matchMs) }

  // Ids never collate as equal.
  ghost predicate Collation(rank: PlayerId -> int, s: State) {
    forall i, j :: 0 <= i < j < |s.entrants| ==> rank(s.entrants[i]) != rank(s.entrants[j])
  }

  // The table that a result carries: every entrant's row once, in rank order.
  ghost predicate Final(s: State, matchMs: int, rank: PlayerId -> int, table: seq<Row>) {
    multiset(table) == multiset(RowsOf(s, matchMs)) && Ranked(table, rank)
  }

  // Survivors first, the eliminated in reverse order of their first elimination.
  lemma LastStandingFirst(s: State, matchMs: int, rank: PlayerId -> int, table: seq<Row>, i: nat, j: nat)
    requires Valid(s) && Final(s, matchMs, rank, table) && i < j < |table|
    ensures table[i].playerId in s.entrants && table[j].playerId in s.entrants && table[i].playerId != table[j].playerId
    ensures table[i].playerId in s.eliminations ==>
              && table[j].playerId in s.eliminations
              && s.eliminations[table[i].playerId].order > s.eliminations[table[j].playerId].order
  {
    RowFrom(s, matchMs, rank, table, i);
    RowFrom(s, matchMs, rank, table, j);
    assert Ahead(table[i], table[j], rank);
  }

  lemma RowFrom(s: State, matchMs: int, rank: PlayerId -> int, table: seq<Row>, i: nat)
    requires Final(s, matchMs, rank, table) && i < |table|
    ensures table[i].playerId in s.entrants && table[i] == RowOf(s, table[i].playerId, matchMs)
  {
    assert table[i] in multiset(RowsOf(s, matchMs));
    var k :| 0 <= k < |s.entrants| && RowsOf(s, matchMs)[k] == table[i];
  }

  // Every entrant is placed.
  lemma EveryonePlacedOnce(s: State, matchMs: int, rank: PlayerId -> int, table: seq<Row>, p: PlayerId) returns (place: nat)
    requires Valid(s) && Final(s, matchMs, rank, table) && p in s.entrants
    ensures place < |table| && table[place].playerId == p
    ensures forall k :: 0 <= k < |table| && table[k].playerId == p ==> k == place
  {
    var i :| 0 <= i < |s.entrants| && s.entrants[i] == p;
    assert RowsOf(s, matchMs)[i] in multiset(table);
    place :| 0 <= place < |table| && table[place] == RowsOf(s, matchMs)[i];
    forall k | 0 <= k < |table| && table[k].playerId == p ensures k == place {
      if k < place { LastStandingFirst(s, matchMs, rank, table, k, place); }
      if place < k { LastStandingFirst(s, matchMs, rank, table, place, k); }
    }
  }

  // Whatever happens later, two eliminated players keep their relative places.
  lemma OrderIsSettled(s: State, events: seq<Event>, t: State, matchMs: int, rank: PlayerId -> int, table: seq<Row>, i: nat, j: nat)
    requires Valid(s) && Runs(s, events, t) && Final(t, matchMs, rank, table) && i < |table| && j < |table|
    requires table[i].playerId in s.eliminations && table[j].playerId in s.eliminations
    requires s.eliminations[table[i].playerId].order > s.eliminations[table[j].playerId].order
    ensures i < j
  {
    hide Runs, Final, Valid, Ranked, RowsOf, RowOf;
    RunKeeps(s, events, t);
    if j < i { LastStandingFirst(t, matchMs, rank, table, j, i); }
  }

  // And a player already out never overtakes one still in.
  lemma OutStaysBehind(s: State, events: seq<Event>, t: State, matchMs: int, rank: PlayerId -> int, table: seq<Row>, i: nat, j: nat)
    requires Valid(s) && Runs(s, events, t) && Final(t, matchMs, rank, table) && i < |table| && j < |table|
    requires table[i].playerId !in s.eliminations && table[j].playerId in s.eliminations
    ensures i < j
  {
    RunKeeps(s, events, t);
    if j < i { LastStandingFirst(t, matchMs, rank, table, j, i); }
  }

  // The table does not depend on the order in which players entered.
  lemma EntryOrderIrrelevant(s: State, entrants: seq<PlayerId>, matchMs: int, rank: PlayerId -> int, a: seq<Row>, b: seq<Row>)
    requires multiset(entrants) == multiset(s.entrants)
    requires Final(s, matchMs, rank, a) && Final(s.(entrants := entrants), matchMs, rank, b)
    ensures a == b
  {
    RowsShuffle(s, s.entrants, entrants, matchMs);
    assert RowsOf(s.(entrants := entrants), matchMs) == RowsFor(s, entrants, matchMs);
    RankedUnique(a, b, rank);
  }

  lemma RowsTake(s: State, players: seq<PlayerId>, k: nat, matchMs: int)
    requires k < |players|
    ensures multiset(RowsFor(s, players, matchMs)) ==
              multiset(RowsFor(s, players[..k] + players[k + 1..], matchMs)) + multiset{RowOf(s, players[k], matchMs)}
  {
    var rows, rest := RowsFor(s, players, matchMs), RowsFor(s, players[..k] + players[k + 1..], matchMs);
    hide RowOf;
    assert rows == rows[..k] + [rows[k]] + rows[k + 1..];
    assert rest == rows[..k] + rows[k + 1..];
  }

  lemma {:induction false} RowsShuffle(s: State, xs: seq<PlayerId>, ys: seq<PlayerId>, matchMs: int)
    requires multiset(xs) == multiset(ys)
    ensures multiset(RowsFor(s, xs, matchMs)) == multiset(RowsFor(s, ys, matchMs))
    decreases |xs|
  {
    hide RowsFor, RowOf;
    if xs == [] {
      assert |multiset(ys)| == |ys|;
      assert ys == xs;
    } else {
      var k := RestMatches(xs, ys);
      RowsShuffle(s, xs[1..], ys[..k] + ys[k + 1..], matchMs);
      RowsTake(s, xs, 0, matchMs);
      RowsTake(s, ys, k, matchMs);
      assert xs[..0] + xs[0 + 1..] == xs[1..];
    }
  }

  lemma RestMatches<T>(xs: seq<T>, ys: seq<T>) returns (k: nat)
    requires xs != [] && multiset(xs) == multiset(ys)
    ensures k < |ys| && ys[k] == xs[0] && multiset(xs[1..]) == multiset(ys[..k] + ys[k + 1..])
  {
    TakeFirst(xs);
    k := Find(ys, xs[0]);
    TakeOne(ys, k);
  }

  lemma Find<T>(ys: seq<T>, x: T) returns (k: nat)
    requires x in multiset(ys)
    ensures k < |ys| && ys[k] == x
  {
    k :| 0 <= k < |ys| && ys[k] == x;
  }

  lemma TakeFirst<T>(xs: seq<T>)
    requires xs != []
    ensures xs[0] in multiset(xs) && multiset(xs[1..]) == multiset(xs) - multiset{xs[0]}
  {
    assert xs == [xs[0]] + xs[1..];
  }

  lemma TakeOne<T>(xs: seq<T>, k: nat)
    requires k < |xs|
    ensures multiset(xs[..k] + xs[k + 1..]) == multiset(xs) - multiset{xs[k]}
  {
    assert xs == xs[..k] + [xs[k]] + xs[k + 1..];
  }

  // ---- The room itself -----------------------------------------------------

  class Arena {
    var entrants: seq<PlayerId>
    var seats: set<PlayerId>
    var snakes: map<PlayerId, Tally>
    var eliminations: map<PlayerId, Elimination>
    var eliminationCounter: int
    var finalScores: map<PlayerId, Tally>

    ghost function View(): State
      reads this
    {
      State(entrants, seats, snakes, eliminations, eliminationCounter, finalScores)
    }

    constructor ()
      ensures View() == EMPTY && Valid(View())
    {
      entrants, seats, snakes, eliminations, eliminationCounter, finalScores := [], {}, map[], map[], 0, map[];
    }

    method AddPlayer(p: PlayerId)
      modifies this
      ensures View() == Joined(old(View()), p)
    {
      if p in seats { return; }
      seats := seats + {p};
      if p !in entrants { entrants := entrants + [p]; }
      if p !in snakes { snakes := snakes[p := Tally(0, 0)]; }
    }

    method Eliminate(p: PlayerId, elapsedMs: int)
      modifies this`eliminations, this`eliminationCounter
      ensures View() == Eliminated(old(View()), p, elapsedMs)
    {
      if p !in eliminations {
        eliminationCounter := eliminationCounter + 1;
        eliminations := eliminations[p := Elimination(eliminationCounter, elapsedMs)];
      }
    }

    method RemovePlayer(p: PlayerId, elapsedMs: int)
      modifies this
      ensures View() == Left(old(View()), p, elapsedMs)
    {
      if p !in seats { return; }
      seats := seats - {p};
      if p !in eliminations {
        if p in snakes { finalScores := finalScores[p := snakes[p]]; }
        Eliminate(p, elapsedMs);
      }
      snakes := snakes - {p};
    }

    // The world has moved; its deaths are recorded in the order they happened.
    method Tick(world: map<PlayerId, Tally>, deaths: seq<Death>, elapsedMs: int)
      modifies this
      ensures View() == Next(old(View()), Event.Tick(world, deaths, elapsedMs))
    {
      snakes := world;
      ghost var moved := View();
      for i := 0 to |deaths|
        invariant View() == AllDied(moved, deaths[..i], elapsedMs)
      {
        var victim := deaths[i].victim;
        finalScores := finalScores[victim := Tally(deaths[i].finalScore, if victim in snakes then snakes[victim].kills else 0)];
        Eliminate(victim, elapsedMs);
        assert deaths[..i + 1][..i] == deaths[..i];
      }
      assert deaths[..|deaths|] == deaths;
    }

    method Respawn(p: PlayerId)
      modifies this`snakes
      ensures View() == Respawned(old(View()), p)
    {
      if p !in seats { return; }
      snakes := snakes[p := Tally(0, 0)];
    }

    method BuildResult(matchMs: int, rank: PlayerId -> int) returns (standings: seq<(Row, int)>)
      requires Collation(rank, View())
      ensures |standings| == |entrants| && forall i :: 0 <= i < |standings| ==> standings[i].1 == i + 1
      ensures Final(View(), matchMs, rank, seq(|standings|, i requires 0 <= i < |standings| => standings[i].0))
    {
      var rows: seq<Row> := [];
      for i := 0 to |entrants|
        invariant |rows| == i && forall k :: 0 <= k < i ==> rows[k] == RowOf(View(), entrants[k], matchMs)
      {
        var p := entrants[i];
        var tally := if p in snakes then snakes[p] else if p in finalScores then finalScores[p] else Tally(0, 0);
        rows := rows + [if p in eliminations
                        then Row(p, tally.score, tally.kills, eliminations[p].survivedMs, Some(eliminations[p].order))
                        else Row(p, tally.score, tally.kills, matchMs, None)];
      }
      assert rows == RowsOf(View(), matchMs);
      var sorted := Sort(rows, rank);
      assert |multiset(sorted)| == |sorted| && |multiset(rows)| == |rows|;
      standings := seq(|sorted|, i requires 0 <= i < |sorted| => (sorted[i], i + 1));
      assert seq(|standings|, i requires 0 <= i < |standings| => standings[i].0) == sorted;
    }
  }
}
