// The lobby state machine: a pure reducer over one tier's queue.
// Times are epoch milliseconds, amounts are lamports.
module Lobby {
  import opened Options

  datatype Status = Waiting | Countdown | Launching | Closed

  datatype Entrant = Entrant(playerId: string, nickname: string, wallet: string)

  datatype Player = Player(playerId: string, nickname: string, wallet: string, joinedAt: int, ready: bool)

  datatype Tier = Tier(
    id: string,
    entryFee: nat,
    minPlayers: nat,
    maxPlayers: Option<nat>,
    countdownSeconds: int,
    readyCountdownSeconds: int)

  datatype State = State(
    tierId: string,
    status: Status,
    players: seq<Player>,
    countdownEndsAt: Option<int>,
    gameId: Option<string>,
    scheduled: bool,
    version: nat)

  datatype Event =
    | Join(player: Entrant)
    | Leave(playerId: string)
    | Ready(playerId: string, ready: bool)
    | Tick
    | Launched(game: string)
    | Open(nextGame: Option<string>, scheduled: bool)
    | Close
    | Reset

  datatype Rejection = LobbyFull | AlreadyJoined | NotJoined | LobbyLaunching | LobbyClosed

  datatype Transition = Transition(state: State, changed: bool, rejected: Option<Rejection>, shouldLaunch: bool)

  function EmptyLobby(tierId: string): State {
    State(tierId, Waiting, [], None, None, false, 0)
  }

  function Unchanged(s: State, rejected: Option<Rejection>): Transition {
    Transition(s, false, rejected, false)
  }

  function Moved(s: State): Transition {
    Transition(s, true, None, false)
  }

  predicate AtCapacity(count: nat, tier: Tier) {
    tier.maxPlayers.Some? && count >= tier.maxPlayers.value
  }

  predicate Holds(players: seq<Player>, id: string) {
    exists i :: 0 <= i < |players| && players[i].playerId == id
  }

  function Without(players: seq<Player>, id: string): seq<Player> {
    if players == [] then []
    else if players[0].playerId == id then Without(players[1..], id)
    else [players[0]] + Without(players[1..], id)
  }

  // The players whose entry fee has confirmed, in queue order.
  function Paid(players: seq<Player>): seq<Player> {
    if players == [] then []
    else if players[0].ready then [players[0]] + Paid(players[1..])
    else Paid(players[1..])
  }

  predicate AllReady(players: seq<Player>) {
    forall i :: 0 <= i < |players| ==> players[i].ready
  }

  // Index of the first player with this id, or the length when there is none.
  function IndexOf(players: seq<Player>, id: string): (i: nat)
    ensures i <= |players|
    ensures i < |players| ==> players[i].playerId == id
    ensures forall j :: 0 <= j < i ==> players[j].playerId != id
  {
    if players == [] then 0
    else if players[0].playerId == id then 0
    else 1 + IndexOf(players[1..], id)
  }

  function TimerSeconds(players: seq<Player>, tier: Tier): int {
    if AllReady(players) || AtCapacity(|players|, tier) then tier.readyCountdownSeconds else tier.countdownSeconds
  }

  // Recomputes the status from the roster; every auto-start rule is here.
  function Settle(s: State, tier: Tier, now: int, mutated: bool): Transition {
    if s.scheduled then Transition(s, mutated, None, false)
    else if |s.players| < tier.minPlayers then
      var statusChanged := s.status != Waiting || s.countdownEndsAt != None;
      Transition(if statusChanged then s.(status := Waiting, countdownEndsAt := None) else s,
                 mutated || statusChanged, None, false)
    else
      var candidate := now + TimerSeconds(s.players, tier) * 1000;
      if s.status == Waiting then
        Moved(s.(status := Countdown, countdownEndsAt := Some(candidate)))
      else if s.status == Countdown && s.countdownEndsAt.Some? then
        if now >= s.countdownEndsAt.value then
          if tier.entryFee > 0 then
            var paid := Paid(s.players);
            if |paid| < tier.minPlayers then
              Moved(s.(players := paid, status := Waiting, countdownEndsAt := None))
            else
              Transition(s.(players := paid, status := Launching, countdownEndsAt := None), true, None, true)
          else
            Transition(s.(status := Launching, countdownEndsAt := None), true, None, true)
        else if candidate < s.countdownEndsAt.value then
          Moved(s.(countdownEndsAt := Some(candidate)))
        else Transition(s, mutated, None, false)
      else Transition(s, mutated, None, false)
  }

  // The rejection of an event, or the state whose roster it has updated.
  function Admit(s: State, e: Event, tier: Tier, now: int): Result<Option<State>, Rejection>
    requires e.Join? || e.Leave? || e.Ready?
  {
    match e
    case Join(p) =>
      if s.status == Launching then Err(LobbyLaunching)
      else if s.status == Closed then Err(LobbyClosed)
      else if Holds(s.players, p.playerId) then Err(AlreadyJoined)
      else if AtCapacity(|s.players|, tier) then Err(LobbyFull)
      else Ok(Some(s.(players := s.players + [Player(p.playerId, p.nickname, p.wallet, now, false)],
                      version := s.version + 1)))
    case Leave(id) =>
      if !Holds(s.players, id) then Err(NotJoined)
      else if s.status == Launching then Err(LobbyLaunching)
      else Ok(Some(s.(players := Without(s.players, id), version := s.version + 1)))
    case Ready(id, ready) =>
      var i := IndexOf(s.players, id);
      if i == |s.players| then Err(NotJoined)
      else if s.status == Launching then Err(LobbyLaunching)
      else if s.players[i].ready == ready then Ok(None)
      else Ok(Some(s.(players := s.players[i := s.players[i].(ready := ready)], version := s.version + 1)))
  }

  function Reduce(s: State, e: Event, tier: Tier, now: int): Transition {
    match e
    case Tick => Settle(s, tier, now, false)
    case Open(gameId, scheduled) =>
      var base := if |s.players| > 0 then s else EmptyLobby(s.tierId);
      Moved(base.(status := Waiting, countdownEndsAt := None, gameId := gameId, scheduled := scheduled,
                  version := s.version + 1))
    case Close =>
      if s.status == Launching then Unchanged(s, None)
      else Moved(s.(status := Launching, countdownEndsAt := None, version := s.version + 1))
    case Launched(gameId) =>
      Moved(s.(status := Launching, gameId := Some(gameId), countdownEndsAt := None, version := s.version + 1))
    case Reset => Moved(EmptyLobby(s.tierId).(version := s.version + 1))
    case _ =>
      match Admit(s, e, tier, now)
      case Err(r) => Unchanged(s, Some(r))
      case Ok(None) => Unchanged(s, None)
      case Ok(Some(s')) => Settle(s', tier, now, true)
  }

  // ---- Roster facts --------------------------------------------------------

  predicate Distinct(players: seq<Player>) {
    forall i, j :: 0 <= i < j < |players| ==> players[i].playerId != players[j].playerId
  }

  // `sub` is `full` with some players dropped, order kept.
  predicate Subsequence(sub: seq<Player>, full: seq<Player>) {
    if sub == [] then true
    else if full == [] then false
    else if sub[0] == full[0] && Subsequence(sub[1..], full[1..]) then true
    else Subsequence(sub, full[1..])
  }

  lemma {:induction false} SubsequenceMembers(sub: seq<Player>, full: seq<Player>)
    requires Subsequence(sub, full)
    ensures |sub| <= |full|
    ensures forall p :: p in sub ==> p in full
    ensures Distinct(full) ==> Distinct(sub)
    decreases |full|
  {
    if sub != [] {
      assert forall p :: p in full[1..] ==> p in full;
      if sub[0] == full[0] && Subsequence(sub[1..], full[1..]) {
        SubsequenceMembers(sub[1..], full[1..]);
        assert forall p :: p in sub <==> p == sub[0] || p in sub[1..];
        if Distinct(full) {
          DistinctTail(full);
          assert forall j :: 0 <= j < |sub[1..]| ==> sub[1..][j] in full[1..];
          forall j | 1 <= j < |sub| ensures sub[j].playerId != sub[0].playerId {
            assert sub[j] == sub[1..][j - 1];
            assert sub[j] in full[1..];
          }
          forall i, j | 0 <= i < j < |sub| ensures sub[i].playerId != sub[j].playerId {
            if i > 0 { assert sub[i] == sub[1..][i - 1] && sub[j] == sub[1..][j - 1]; }
          }
        }
      } else {
        SubsequenceMembers(sub, full[1..]);
        if Distinct(full) { DistinctTail(full); }
      }
    }
  }

  lemma DistinctTail(full: seq<Player>)
    requires Distinct(full) && full != []
    ensures Distinct(full[1..])
    ensures forall p :: p in full[1..] ==> p.playerId != full[0].playerId
  {
  }

  lemma {:induction false} PaidSubsequence(players: seq<Player>)
    ensures Subsequence(Paid(players), players)
    ensures AllReady(Paid(players))
    ensures forall p :: p in players && p.ready ==> p in Paid(players)
    ensures AllReady(players) ==> Paid(players) == players
    ensures Paid(Paid(players)) == Paid(players)
  {
    if players != [] {
      PaidSubsequence(players[1..]);
      var rest := Paid(players[1..]);
      assert forall p :: p in players <==> p == players[0] || p in players[1..];
      if players[0].ready {
        assert Paid(players)[1..] == rest;
      } else if Paid(players) != [] {
        assert Subsequence(rest, players[1..]);
      }
    }
  }

  lemma {:induction false} WithoutSubsequence(players: seq<Player>, id: string)
    ensures Subsequence(Without(players, id), players)
    ensures !Holds(Without(players, id), id)
    ensures forall p :: p in players && p.playerId != id ==> p in Without(players, id)
    ensures Holds(players, id) && Distinct(players) ==> |Without(players, id)| == |players| - 1
  {
    if players != [] {
      WithoutSubsequence(players[1..], id);
      var rest := Without(players[1..], id);
      assert forall p :: p in players <==> p == players[0] || p in players[1..];
      if players[0].playerId == id {
        if Distinct(players) {
          DistinctTail(players);
          WithoutAbsent(players[1..], id);
        }
      } else {
        assert Without(players, id)[1..] == rest;
        forall i | 0 <= i < |Without(players, id)| ensures Without(players, id)[i].playerId != id {
          if i > 0 { assert Without(players, id)[i] == rest[i - 1]; }
        }
        if Holds(players, id) && Distinct(players) {
          var i :| 0 <= i < |players| && players[i].playerId == id;
          assert players[1..][i - 1].playerId == id;
          DistinctTail(players);
        }
      }
    }
  }

  lemma {:induction false} WithoutAbsent(players: seq<Player>, id: string)
    requires !Holds(players, id)
    ensures Without(players, id) == players
  {
    if players != [] {
      assert players[0].playerId != id;
      forall i | 0 <= i < |players[1..]| ensures players[1..][i].playerId != id {
        assert players[1..][i] == players[i + 1];
      }
      WithoutAbsent(players[1..], id);
    }
  }

  // ---- The invariant of every reachable lobby ------------------------------

  predicate WithinCapacity(count: nat, tier: Tier) {
    tier.maxPlayers.Some? ==> count <= tier.maxPlayers.value
  }

  predicate WellFormed(s: State, tier: Tier) {
    && Distinct(s.players)
    && WithinCapacity(|s.players|, tier)
    && (s.countdownEndsAt.Some? <==> s.status == Countdown)
    && (s.status == Countdown ==> !s.scheduled && |s.players| >= tier.minPlayers)
    && s.status != Closed
  }

  // What `Settle` may assume: a countdown may have lost players since it started.
  predicate Settleable(s: State, tier: Tier) {
    && Distinct(s.players)
    && WithinCapacity(|s.players|, tier)
    && (s.countdownEndsAt.Some? <==> s.status == Countdown)
    && (s.status == Countdown ==> !s.scheduled)
    && s.status != Closed
  }

  lemma SettleKeeps(s: State, tier: Tier, now: int, mutated: bool)
    requires Settleable(s, tier)
    ensures var t := Settle(s, tier, now, mutated);
            && WellFormed(t.state, tier)
            && t.rejected == None
            && Subsequence(t.state.players, s.players)
            && t.state.version == s.version
            && t.state.tierId == s.tierId
            && (!t.changed ==> t.state == s && !mutated)
  {
    PaidSubsequence(s.players);
    SubsequenceMembers(Paid(s.players), s.players);
    SubsequenceSelf(s.players);
    hide Subsequence, Paid, TimerSeconds;
  }

  lemma {:induction false} SubsequenceSelf(players: seq<Player>)
    ensures Subsequence(players, players)
  {
    if players != [] { SubsequenceSelf(players[1..]); }
  }

  lemma AdmitKeeps(s: State, e: Event, tier: Tier, now: int)
    requires WellFormed(s, tier)
    requires e.Join? || e.Leave? || e.Ready?
    ensures var a := Admit(s, e, tier, now);
            a.Ok? && a.value.Some? ==>
              && Settleable(a.value.value, tier)
              && a.value.value.version == s.version + 1
              && a.value.value.tierId == s.tierId
              && s.status != Launching
              && |a.value.value.players| <= |s.players| + (if e.Join? then 1 else 0)
  {
    match e
    case Join(p) =>
    case Leave(id) =>
      WithoutSubsequence(s.players, id);
      SubsequenceMembers(Without(s.players, id), s.players);
    case Ready(id, ready) =>
  }

  // Every lobby reachable from the empty one is well formed; a rejected or
  // unchanged event returns the very state it was given, and exactly the
  // changes other than a tick raise the version, by one.
  lemma ReduceKeeps(s: State, e: Event, tier: Tier, now: int)
    requires WellFormed(s, tier)
    ensures var t := Reduce(s, e, tier, now);
            && WellFormed(t.state, tier)
            && t.state.tierId == s.tierId
            && (!t.changed ==> t.state == s && !t.shouldLaunch)
            && (t.rejected.Some? ==> !t.changed)
            && t.state.version == s.version + (if t.changed && !e.Tick? then 1 else 0)
            && |t.state.players| <= |s.players| + (if e.Join? && t.changed then 1 else 0)
  {
    match e
    case Tick =>
      SettleKeeps(s, tier, now, false);
      SubsequenceMembers(Settle(s, tier, now, false).state.players, s.players);
    case Open(_, _) =>
    case Close =>
    case Launched(_) =>
    case Reset =>
    case _ =>
      AdmitKeeps(s, e, tier, now);
      var a := Admit(s, e, tier, now);
      if a.Ok? && a.value.Some? {
        SettleKeeps(a.value.value, tier, now, true);
        SubsequenceMembers(Settle(a.value.value, tier, now, true).state.players, a.value.value.players);
      }
  }

  // ---- Launching -----------------------------------------------------------

  // The state `Settle` is handed for this event, when it is reached.
  function Settling(s: State, e: Event, tier: Tier, now: int): Option<State> {
    match e
    case Tick => Some(s)
    case Open(_, _) => None
    case Close => None
    case Launched(_) => None
    case Reset => None
    case _ =>
      var a := Admit(s, e, tier, now);
      if a.Ok? then a.value else None
  }

  // An unscheduled lobby at strength whose deadline has passed.
  predicate Expires(s: State, tier: Tier, now: int) {
    && !s.scheduled && s.status == Countdown && s.countdownEndsAt.Some?
    && now >= s.countdownEndsAt.value && |s.players| >= tier.minPlayers
  }

  // A launch happens exactly when a settled lobby expires with enough payers
  // (or is free), and it takes the payers alone, in queue order, into the match.
  lemma LaunchExactly(s: State, e: Event, tier: Tier, now: int)
    requires WellFormed(s, tier)
    ensures var t := Reduce(s, e, tier, now);
            var pre := Settling(s, e, tier, now);
            && (t.shouldLaunch <==>
                 pre.Some? && Expires(pre.value, tier, now) &&
                 (tier.entryFee > 0 ==> |Paid(pre.value.players)| >= tier.minPlayers))
            && (t.shouldLaunch ==>
                 && t.state.status == Launching
                 && !t.state.scheduled
                 && |t.state.players| >= tier.minPlayers
                 && Subsequence(t.state.players, pre.value.players)
                 && (tier.entryFee > 0 ==> AllReady(t.state.players))
                 && (forall p :: p in pre.value.players && p.ready ==> p in t.state.players)
                 && (tier.entryFee == 0 ==> t.state.players == pre.value.players))
  {
    var pre := Settling(s, e, tier, now);
    if pre.Some? {
      PaidSubsequence(pre.value.players);
      SubsequenceSelf(pre.value.players);
    }
  }

  // An accepted join does not always leave the joiner queued: arriving in a paid
  // lobby after its deadline, the unpaid newcomer is dropped by the expiry that
  // the join itself settles. This says exactly when.
  lemma JoinedPlayerStays(s: State, p: Entrant, tier: Tier, now: int)
    requires WellFormed(s, tier)
    requires Reduce(s, Join(p), tier, now).rejected == None
    ensures Holds(Reduce(s, Join(p), tier, now).state.players, p.playerId) <==>
            !(s.status == Countdown && now >= s.countdownEndsAt.value && tier.entryFee > 0)
  {
    var joined := s.players + [Player(p.playerId, p.nickname, p.wallet, now, false)];
    assert joined[|s.players|].playerId == p.playerId;
    var s' := Admit(s, Join(p), tier, now).value.value;
    PaidDropsUnready(joined, p.playerId);
  }

  lemma {:induction false} PaidDropsUnready(players: seq<Player>, id: string)
    requires forall i :: 0 <= i < |players| && players[i].playerId == id ==> !players[i].ready
    ensures !Holds(Paid(players), id)
  {
    if players != [] { PaidDropsUnready(players[1..], id); }
  }

  // ---- Settling twice ------------------------------------------------------

  // Settling again at the same clock changes nothing, except exactly when the
  // timer that applies is not positive and the first settle set the deadline.
  lemma SettleFixpoint(s: State, tier: Tier, now: int, mutated: bool)
    requires Settleable(s, tier)
    ensures var t := Settle(s, tier, now, mutated);
            Settle(t.state, tier, now, false).changed <==>
              && !s.scheduled && |s.players| >= tier.minPlayers
              && TimerSeconds(s.players, tier) <= 0
              && (s.status == Waiting || (s.status == Countdown && now < s.countdownEndsAt.value))
  {
    PaidSubsequence(s.players);
    SubsequenceMembers(Paid(s.players), s.players);
  }

  // ---- Runs ----------------------------------------------------------------

  datatype Timed = Timed(event: Event, now: int)

  function Fold(s: State, tier: Tier, run: seq<Timed>): State {
    if run == [] then s
    else Reduce(Fold(s, tier, run[..|run| - 1]), run[|run| - 1].event, tier, run[|run| - 1].now).state
  }

  lemma {:induction false} FoldWellFormed(s: State, tier: Tier, run: seq<Timed>)
    requires WellFormed(s, tier)
    ensures WellFormed(Fold(s, tier, run), tier)
    ensures Fold(s, tier, run).tierId == s.tierId
  {
    if run != [] {
      FoldWellFormed(s, tier, run[..|run| - 1]);
      ReduceKeeps(Fold(s, tier, run[..|run| - 1]), run[|run| - 1].event, tier, run[|run| - 1].now);
    }
  }

  // Ann pays and counts down alone; Bob joins after her deadline and is accepted,
  // the lobby launches, and he is not in it.
  lemma LateJoinerLeftOut()
    ensures var tier := Tier("tier", 1, 1, None, 30, 10);
            var run := [Timed(Join(Entrant("ann", "Ann", "w1")), 0), Timed(Ready("ann", true), 1000)];
            var t := Reduce(Fold(EmptyLobby("tier"), tier, run), Join(Entrant("bob", "Bob", "w2")), tier, 20000);
            t.rejected == None && t.shouldLaunch && !Holds(t.state.players, "bob")
  {
    var tier := Tier("tier", 1, 1, None, 30, 10);
    var joined, paid := Timed(Join(Entrant("ann", "Ann", "w1")), 0), Timed(Ready("ann", true), 1000);
    var ann := Player("ann", "Ann", "w1", 0, false);
    assert [joined][..0] == [] && [joined, paid][..1] == [joined];
    assert Fold(EmptyLobby("tier"), tier, [joined]) == EmptyLobby("tier").(players := [ann], status := Countdown,
      countdownEndsAt := Some(30000), version := 1);
    assert Fold(EmptyLobby("tier"), tier, [joined, paid]).countdownEndsAt == Some(11000);
    JoinedPlayerStays(Fold(EmptyLobby("tier"), tier, [joined, paid]), Entrant("bob", "Bob", "w2"), tier, 20000);
  }

  // A paid countdown that ran out without enough payers.
  predicate FailedExpiry(s: State, e: Event, tier: Tier, now: int) {
    var pre := Settling(s, e, tier, now);
    && tier.entryFee > 0 && pre.Some? && Expires(pre.value, tier, now)
    && |Paid(pre.value.players)| < tier.minPlayers
  }

  function FailedExpiries(s: State, tier: Tier, run: seq<Timed>): nat {
    if run == [] then 0
    else
      var last := run[|run| - 1];
      FailedExpiries(s, tier, run[..|run| - 1]) +
      (if FailedExpiry(Fold(s, tier, run[..|run| - 1]), last.event, tier, last.now) then 1 else 0)
  }

  function Joins(s: State, tier: Tier, run: seq<Timed>): nat {
    if run == [] then 0
    else
      var last := run[|run| - 1];
      Joins(s, tier, run[..|run| - 1]) +
      (if last.event.Join? && Reduce(Fold(s, tier, run[..|run| - 1]), last.event, tier, last.now).rejected == None
       then 1 else 0)
  }

  // Each failed expiry drops a player, so a lobby cannot count down for ever:
  // the failures, plus whoever is still queued, never outnumber the initial
  // roster and the joins.
  lemma {:induction false} FailedExpiriesBounded(s: State, tier: Tier, run: seq<Timed>)
    requires WellFormed(s, tier)
    ensures FailedExpiries(s, tier, run) + |Fold(s, tier, run).players| <= |s.players| + Joins(s, tier, run)
  {
    if run != [] {
      var front := run[..|run| - 1];
      var last := run[|run| - 1];
      var mid := Fold(s, tier, front);
      FailedExpiriesBounded(s, tier, front);
      FoldWellFormed(s, tier, front);
      ReduceKeeps(mid, last.event, tier, last.now);
      if FailedExpiry(mid, last.event, tier, last.now) {
        if !last.event.Tick? { AdmitKeeps(mid, last.event, tier, last.now); }
      }
    }
  }

  // A lobby below strength that is not counting down.
  predicate Short(s: State, tier: Tier) {
    |s.players| < tier.minPlayers && s.status in {Waiting, Launching} && s.countdownEndsAt == None
  }

  lemma FailedExpiryLeavesShort(s: State, e: Event, tier: Tier, now: int)
    requires WellFormed(s, tier) && FailedExpiry(s, e, tier, now)
    ensures var t := Reduce(s, e, tier, now);
            && Short(t.state, tier) && t.state.status == Waiting && AllReady(t.state.players)
            && t.changed && !t.shouldLaunch
  {
    PaidSubsequence(Settling(s, e, tier, now).value.players);
  }

  // Until someone joins, a short lobby stays short: nothing launches, and a tick
  // changes it only by reopening an unscheduled lobby that something closed.
  lemma {:induction false} ShortUntilJoin(s: State, tier: Tier, run: seq<Timed>, now: int)
    requires WellFormed(s, tier) && Short(s, tier)
    requires forall i :: 0 <= i < |run| ==> !run[i].event.Join?
    ensures var s' := Fold(s, tier, run);
            && Short(s', tier)
            && (Reduce(s', Tick, tier, now).changed <==> s'.status == Launching && !s'.scheduled)
            && !Reduce(s', Tick, tier, now).shouldLaunch
  {
    if run != [] {
      var front := run[..|run| - 1];
      var last := run[|run| - 1];
      ShortUntilJoin(s, tier, front, now);
      FoldWellFormed(s, tier, front);
      var mid := Fold(s, tier, front);
      ReduceKeeps(mid, last.event, tier, last.now);
      if last.event.Leave? || last.event.Ready? { AdmitKeeps(mid, last.event, tier, last.now); }
    }
  }

  predicate CountingThroughout(s: State, tier: Tier, run: seq<Timed>) {
    forall k :: 0 <= k <= |run| ==> Fold(s, tier, run[..k]).status == Countdown
  }

  function LongestTimerMs(tier: Tier): int {
    1000 * (if tier.countdownSeconds > tier.readyCountdownSeconds then tier.countdownSeconds
            else tier.readyCountdownSeconds)
  }

  lemma CountdownStartsInWindow(s: State, e: Event, tier: Tier, now: int)
    requires WellFormed(s, tier) && s.status != Countdown
    requires Reduce(s, e, tier, now).state.status == Countdown
    ensures Reduce(s, e, tier, now).state.countdownEndsAt.value <= now + LongestTimerMs(tier)
  {
  }

  lemma {:induction false} DeadlineNeverLater(s: State, tier: Tier, run: seq<Timed>)
    requires WellFormed(s, tier) && CountingThroughout(s, tier, run)
    ensures s.countdownEndsAt.Some? && Fold(s, tier, run).countdownEndsAt.Some?
    ensures Fold(s, tier, run).countdownEndsAt.value <= s.countdownEndsAt.value
  {
    assert run[..0] == [];
    assert Fold(s, tier, run[..0]).status == Countdown;
    if run != [] {
      var front := run[..|run| - 1];
      forall k | 0 <= k <= |front| ensures Fold(s, tier, front[..k]).status == Countdown {
        assert front[..k] == run[..k];
      }
      DeadlineNeverLater(s, tier, front);
      FoldWellFormed(s, tier, front);
      FoldWellFormed(s, tier, run);
      assert run[..|run|] == run;
    } else {
      assert s == Fold(s, tier, run);
    }
  }

  // One unbroken countdown started at `start` is over at the first settled
  // event from `start` plus the longest timer on.
  lemma {:induction false} CountdownEnds(s: State, tier: Tier, run: seq<Timed>, e: Event, now: int, start: int)
    requires WellFormed(s, tier) && CountingThroughout(s, tier, run)
    requires s.countdownEndsAt.Some? && s.countdownEndsAt.value <= start + LongestTimerMs(tier)
    requires now >= start + LongestTimerMs(tier)
    requires Settling(Fold(s, tier, run), e, tier, now).Some?
    ensures Reduce(Fold(s, tier, run), e, tier, now).state.status != Countdown
  {
    DeadlineNeverLater(s, tier, run);
    FoldWellFormed(s, tier, run);
    if !e.Tick? { AdmitKeeps(Fold(s, tier, run), e, tier, now); }
  }
}
