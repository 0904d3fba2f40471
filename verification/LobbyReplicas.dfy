// Any number of matchmaker replicas driving one tier's lobby through a shared
// cell that offers only a load and a version-guarded write.
module LobbyReplicas {
  import opened Options
  import opened Lobby

  const MAX_CAS_ATTEMPTS: nat := 5

  // Where one replica stands inside `apply` or `performLaunch`.
  datatype Replica =
    | Idle
    | Loading(event: Event, attempt: nat)
    | Loaded(event: Event, attempt: nat, current: State, ticksSeen: nat)
    | Creating(launched: State)
    | Marking(launched: State, game: string)
    | Clearing(launched: State, marked: State)
    | Resetting(launched: State)

  // `log`, `ticks`, `launches` and `launchedAt` record history: the saved events
  // in save order, how many of them were ticks, the states handed to a launch,
  // and how long the log was when each was saved.
  datatype System = System(
    cell: Option<State>,
    replicas: map<nat, Replica>,
    log: seq<Timed>,
    ticks: nat,
    launches: seq<State>,
    launchedAt: seq<nat>)

  datatype Action =
    | Begin(r: nat, event: Event)
    | Load(r: nat)
    | Save(r: nat, now: int)
    | GameCreated(r: nat, game: string)
    | SaveMarked(r: nat)
    | SaveReset(r: nat)
    | LaunchFails(r: nat)

  function Initial(): System {
    System(None, map[], [], 0, [], [])
  }

  // An absent key reads as the empty lobby, and its version as zero.
  function Current(sys: System, tier: Tier): State {
    if sys.cell.Some? then sys.cell.value else EmptyLobby(tier.id)
  }

  function At(sys: System, r: nat): Replica {
    if r in sys.replicas then sys.replicas[r] else Idle
  }

  function Moves(sys: System, r: nat, to: Replica): System {
    sys.(replicas := sys.replicas[r := to])
  }

  // The compare-and-set: writes only over the expected version.
  function Cas(sys: System, tier: Tier, next: State, expected: nat, entry: Timed): System {
    if Current(sys, tier).version != expected then sys
    else sys.(cell := Some(next), log := sys.log + [entry],
              ticks := sys.ticks + (if entry.event.Tick? then 1 else 0))
  }

  predicate Writes(sys: System, tier: Tier, a: Action) {
    && a.Save? && At(sys, a.r).Loaded?
    && var p := At(sys, a.r);
       var t := Reduce(p.current, p.event, tier, a.now);
       t.rejected.None? && t.changed && Current(sys, tier).version == p.current.version
  }

  // One save of `apply`: nothing to write, a lost race to retry, or a write.
  function SaveStep(sys: System, tier: Tier, r: nat, p: Replica, now: int): System
    requires p.Loaded?
  {
    var t := Reduce(p.current, p.event, tier, now);
    if t.rejected.Some? || !t.changed then Moves(sys, r, Idle)
    else if Current(sys, tier).version != p.current.version then
      Moves(sys, r, if p.attempt + 1 < MAX_CAS_ATTEMPTS then Loading(p.event, p.attempt + 1) else Idle)
    else
      var sys' := Cas(sys, tier, t.state, p.current.version, Timed(p.event, now));
      if t.shouldLaunch then Launches(Moves(sys', r, Creating(t.state)), t.state) else Moves(sys', r, Idle)
  }

  function Launches(sys: System, launched: State): System {
    sys.(launches := sys.launches + [launched], launchedAt := sys.launchedAt + [|sys.log|])
  }

  // The two saves of `performLaunch`; neither result is looked at.
  function MarkStep(sys: System, tier: Tier, r: nat, launched: State, game: string): System {
    var marked := Reduce(launched, Launched(game), tier, 0).state;
    Moves(Cas(sys, tier, marked, launched.version, Timed(Launched(game), 0)), r, Clearing(launched, marked))
  }

  function ResetStep(sys: System, tier: Tier, r: nat, base: State): System {
    Moves(Cas(sys, tier, Reduce(base, Reset, tier, 0).state, base.version, Timed(Reset, 0)), r, Idle)
  }

  function Step(sys: System, tier: Tier, a: Action): System {
    var p := At(sys, a.r);
    match a
    case Begin(r, e) => if p.Idle? then Moves(sys, r, Loading(e, 0)) else sys
    case Load(r) =>
      if p.Loading? then Moves(sys, r, Loaded(p.event, p.attempt, Current(sys, tier), sys.ticks)) else sys
    case Save(r, now) => if p.Loaded? then SaveStep(sys, tier, r, p, now) else sys
    case GameCreated(r, game) => if p.Creating? then Moves(sys, r, Marking(p.launched, game)) else sys
    case SaveMarked(r) => if p.Marking? then MarkStep(sys, tier, r, p.launched, p.game) else sys
    case SaveReset(r) =>
      if p.Clearing? then ResetStep(sys, tier, r, p.marked)
      else if p.Resetting? then ResetStep(sys, tier, r, p.launched)
      else sys
    case LaunchFails(r) =>
      if p.Creating? || p.Marking? || p.Clearing? then Moves(sys, r, Resetting(p.launched)) else sys
  }

  function Run(sys: System, tier: Tier, run: seq<Action>): System {
    if run == [] then sys else Step(Run(sys, tier, run[..|run| - 1]), tier, run[|run| - 1])
  }

  function Raises(log: seq<Timed>): nat {
    if log == [] then 0
    else Raises(log[..|log| - 1]) + (if log[|log| - 1].event.Tick? then 0 else 1)
  }

  // ---- What every run keeps, ticks included --------------------------------

  predicate Sound(s: State, tier: Tier) {
    WellFormed(s, tier) && s.tierId == tier.id
  }

  predicate ReplicaSound(p: Replica, tier: Tier) {
    match p
    case Idle => true
    case Loading(_, _) => true
    case Loaded(_, _, c, _) => Sound(c, tier)
    case Clearing(s, m) =>
      Sound(s, tier) && m.tierId == tier.id && m.version == s.version + 1 && WellFormed(m, tier)
    case _ => Sound(p.launched, tier)
  }

  predicate Safe(sys: System, tier: Tier) {
    && Sound(Current(sys, tier), tier)
    && Current(sys, tier).version == Raises(sys.log)
    && forall r :: r in sys.replicas ==> ReplicaSound(sys.replicas[r], tier)
  }

  lemma CasSafe(sys: System, tier: Tier, next: State, expected: nat, entry: Timed)
    requires Safe(sys, tier) && Sound(next, tier)
    requires next.version == expected + (if entry.event.Tick? then 0 else 1)
    ensures Safe(Cas(sys, tier, next, expected, entry), tier)
    ensures Current(Cas(sys, tier, next, expected, entry), tier).version >= Current(sys, tier).version
  {
    var log' := sys.log + [entry];
    assert log'[..|log'| - 1] == sys.log;
  }

  lemma LaunchSaves(s: State, tier: Tier, game: string)
    ensures var t := Reduce(s, Launched(game), tier, 0);
            t.changed && t.state == s.(status := Launching, gameId := Some(game), countdownEndsAt := None,
                                       version := s.version + 1)
    ensures var t := Reduce(s, Reset, tier, 0);
            t.changed && t.state == EmptyLobby(s.tierId).(version := s.version + 1)
  {
  }

  lemma MovesSafe(sys: System, tier: Tier, r: nat, to: Replica)
    requires Safe(sys, tier) && ReplicaSound(to, tier)
    ensures Safe(Moves(sys, r, to), tier)
  {
  }

  lemma SaveSafe(sys: System, tier: Tier, r: nat, p: Replica, now: int)
    requires Safe(sys, tier) && p.Loaded? && ReplicaSound(p, tier)
    ensures Safe(SaveStep(sys, tier, r, p, now), tier)
    ensures Current(SaveStep(sys, tier, r, p, now), tier).version >= Current(sys, tier).version
  {
    hide Reduce, WellFormed, Cas;
    var t := Reduce(p.current, p.event, tier, now);
    ReduceKeeps(p.current, p.event, tier, now);
    if t.rejected.None? && t.changed && Current(sys, tier).version == p.current.version {
      CasSafe(sys, tier, t.state, p.current.version, Timed(p.event, now));
      var sys' := Cas(sys, tier, t.state, p.current.version, Timed(p.event, now));
      MovesSafe(sys', tier, r, if t.shouldLaunch then Creating(t.state) else Idle);
    }
  }

  lemma MarkSafe(sys: System, tier: Tier, r: nat, launched: State, game: string)
    requires Safe(sys, tier) && Sound(launched, tier)
    ensures Safe(MarkStep(sys, tier, r, launched, game), tier)
    ensures Current(MarkStep(sys, tier, r, launched, game), tier).version >= Current(sys, tier).version
  {
    hide Reduce, WellFormed, Cas;
    ReduceKeeps(launched, Launched(game), tier, 0);
    LaunchSaves(launched, tier, game);
    var marked := Reduce(launched, Launched(game), tier, 0).state;
    CasSafe(sys, tier, marked, launched.version, Timed(Launched(game), 0));
    MovesSafe(Cas(sys, tier, marked, launched.version, Timed(Launched(game), 0)), tier, r, Clearing(launched, marked));
  }

  lemma ResetSafe(sys: System, tier: Tier, r: nat, base: State)
    requires Safe(sys, tier) && Sound(base, tier)
    ensures Safe(ResetStep(sys, tier, r, base), tier)
    ensures Current(ResetStep(sys, tier, r, base), tier).version >= Current(sys, tier).version
  {
    hide Reduce, WellFormed, Cas;
    ReduceKeeps(base, Reset, tier, 0);
    LaunchSaves(base, tier, "");
    var next := Reduce(base, Reset, tier, 0).state;
    CasSafe(sys, tier, next, base.version, Timed(Reset, 0));
    MovesSafe(Cas(sys, tier, next, base.version, Timed(Reset, 0)), tier, r, Idle);
  }

  lemma StepSafe(sys: System, tier: Tier, a: Action)
    requires Safe(sys, tier)
    ensures Safe(Step(sys, tier, a), tier)
    ensures Current(Step(sys, tier, a), tier).version >= Current(sys, tier).version
  {
    hide Reduce, WellFormed, SaveStep, MarkStep, ResetStep;
    var p := At(sys, a.r);
    assert ReplicaSound(p, tier);
    match a
    case Save(r, now) => if p.Loaded? { SaveSafe(sys, tier, r, p, now); }
    case SaveMarked(r) => if p.Marking? { MarkSafe(sys, tier, r, p.launched, p.game); }
    case SaveReset(r) =>
      if p.Clearing? { ResetSafe(sys, tier, r, p.marked); }
      else if p.Resetting? { ResetSafe(sys, tier, r, p.launched); }
    case _ =>
  }

  // Whatever the interleaving: the stored lobby is well formed (distinct players,
  // within capacity), and its version is the number of saves other than ticks.
  lemma {:induction false} RunSafe(sys: System, tier: Tier, run: seq<Action>)
    requires Safe(sys, tier)
    ensures Safe(Run(sys, tier, run), tier)
    ensures Current(Run(sys, tier, run), tier).version >= Current(sys, tier).version
  {
    if run != [] {
      RunSafe(sys, tier, run[..|run| - 1]);
      StepSafe(Run(sys, tier, run[..|run| - 1]), tier, run[|run| - 1]);
    }
  }

  predicate Avoids(run: seq<Action>, r: nat) {
    forall i :: 0 <= i < |run| ==> run[i].r != r
  }

  lemma {:induction false} RunLeavesReplica(sys: System, tier: Tier, run: seq<Action>, r: nat)
    requires Avoids(run, r)
    ensures At(Run(sys, tier, run), r) == At(sys, r)
  {
    if run != [] { RunLeavesReplica(sys, tier, run[..|run| - 1], r); }
  }

  // Two replicas that loaded the same version cannot both get a version-raising
  // write in: whatever runs in between, the second save writes nothing, and so
  // two joins that both saw the last free seat never both succeed.
  lemma {:induction false} OneWinnerPerVersion(sys: System, tier: Tier, r1: nat, now1: int, between: seq<Action>, r2: nat, now2: int)
    requires Safe(sys, tier) && r1 != r2
    requires At(sys, r1).Loaded? && At(sys, r2).Loaded?
    requires At(sys, r1).current.version == At(sys, r2).current.version
    requires !At(sys, r1).event.Tick? && Writes(sys, tier, Save(r1, now1))
    requires Avoids(between, r2)
    ensures var sys' := Run(Step(sys, tier, Save(r1, now1)), tier, between);
            && !Writes(sys', tier, Save(r2, now2))
            && Step(sys', tier, Save(r2, now2)).cell == sys'.cell
            && Step(sys', tier, Save(r2, now2)).log == sys'.log
  {
    hide Safe, Writes, Step, Run, Reduce;
    var sys1 := Step(sys, tier, Save(r1, now1));
    WinnerRaises(sys, tier, r1, now1, r2);
    StepSafe(sys, tier, Save(r1, now1));
    RunSafe(sys1, tier, between);
    RunLeavesReplica(sys1, tier, between, r2);
    StaleWritesNothing(Run(sys1, tier, between), tier, r2, now2);
  }

  lemma WinnerRaises(sys: System, tier: Tier, r1: nat, now1: int, r2: nat)
    requires Safe(sys, tier) && r1 != r2 && At(sys, r1).Loaded?
    requires !At(sys, r1).event.Tick? && Writes(sys, tier, Save(r1, now1))
    ensures var sys1 := Step(sys, tier, Save(r1, now1));
            Current(sys1, tier).version == At(sys, r1).current.version + 1 && At(sys1, r2) == At(sys, r2)
  {
    hide Reduce, WellFormed;
    var p := At(sys, r1);
    assert ReplicaSound(p, tier);
    ReduceKeeps(p.current, p.event, tier, now1);
  }

  lemma StaleWritesNothing(sys: System, tier: Tier, r: nat, now: int)
    requires At(sys, r).Loaded? && At(sys, r).current.version != Current(sys, tier).version
    ensures var after := Step(sys, tier, Save(r, now));
            !Writes(sys, tier, Save(r, now)) && after.cell == sys.cell && after.log == sys.log
  {
    hide Reduce;
  }

  // ---- Runs in which no tick is saved between a load and its save ----------

  predicate Fresh(sys: System, tier: Tier, a: Action) {
    Writes(sys, tier, a) ==> At(sys, a.r).ticksSeen == sys.ticks
  }

  predicate Untorn(sys: System, tier: Tier, run: seq<Action>) {
    forall k :: 0 <= k < |run| ==> Fresh(Run(sys, tier, run[..k]), tier, run[k])
  }

  // A launched lobby: no tick can move it.
  predicate InLaunch(s: State, tier: Tier) {
    s.status == Launching && !s.scheduled && |s.players| >= tier.minPlayers
  }

  predicate ReplicaFresh(p: Replica, sys: System, tier: Tier) {
    var now := Current(sys, tier);
    match p
    case Idle => true
    case Loading(_, _) => true
    case Loaded(_, _, c, t) =>
      c.version <= now.version && t <= sys.ticks && (c.version == now.version && t == sys.ticks ==> c == now)
    case _ =>
      InLaunch(p.launched, tier) && p.launched.version <= now.version &&
      (p.launched.version == now.version ==> p.launched == now)
  }

  predicate LaunchesFresh(sys: System, tier: Tier) {
    var now := Current(sys, tier);
    && (forall i :: 0 <= i < |sys.launches| ==>
          && InLaunch(sys.launches[i], tier)
          && sys.launches[i].version <= now.version
          && (sys.launches[i].version == now.version ==> sys.launches[i] == now))
    && forall i, j :: 0 <= i < j < |sys.launches| ==> sys.launches[i].version < sys.launches[j].version
  }

  predicate Linear(sys: System, tier: Tier) {
    && Safe(sys, tier)
    && Current(sys, tier) == Fold(EmptyLobby(tier.id), tier, sys.log)
    && (forall r :: r in sys.replicas ==> ReplicaFresh(sys.replicas[r], sys, tier))
    && LaunchesFresh(sys, tier)
  }

  // A write that the reducer would also have made of the stored state.
  lemma CasLinear(sys: System, tier: Tier, next: State, expected: nat, entry: Timed)
    requires Linear(sys, tier) && Sound(next, tier)
    requires next.version == expected + (if entry.event.Tick? then 0 else 1)
    requires Current(sys, tier).version == expected ==>
               next == Reduce(Current(sys, tier), entry.event, tier, entry.now).state
    requires Current(sys, tier).version == expected && entry.event.Tick? ==> next != Current(sys, tier)
    ensures Linear(Cas(sys, tier, next, expected, entry), tier)
  {
    CasSafe(sys, tier, next, expected, entry);
    if Current(sys, tier).version == expected {
      var sys' := Cas(sys, tier, next, expected, entry);
      assert sys'.log[..|sys'.log| - 1] == sys.log;
      if entry.event.Tick? {
        assert !InLaunch(Current(sys, tier), tier);
      }
      forall r | r in sys'.replicas ensures ReplicaFresh(sys'.replicas[r], sys', tier) {
        assert ReplicaFresh(sys.replicas[r], sys, tier);
      }
    }
  }

  lemma MovesLinear(sys: System, tier: Tier, r: nat, to: Replica)
    requires Linear(sys, tier) && ReplicaSound(to, tier) && ReplicaFresh(to, sys, tier)
    ensures Linear(Moves(sys, r, to), tier)
  {
    var sys' := Moves(sys, r, to);
    forall q | q in sys'.replicas ensures ReplicaFresh(sys'.replicas[q], sys', tier) {
      assert q != r ==> ReplicaFresh(sys.replicas[q], sys, tier);
    }
  }

  lemma SaveLinear(sys: System, tier: Tier, r: nat, p: Replica, now: int)
    requires Linear(sys, tier) && p.Loaded? && ReplicaSound(p, tier) && ReplicaFresh(p, sys, tier)
    requires p.current.version == Current(sys, tier).version ==> p.ticksSeen == sys.ticks
    ensures Linear(SaveStep(sys, tier, r, p, now), tier)
  {
    hide Reduce, WellFormed, Cas;
    var t := Reduce(p.current, p.event, tier, now);
    ReduceKeeps(p.current, p.event, tier, now);
    if t.rejected.None? && t.changed && Current(sys, tier).version == p.current.version {
      var old_ := Current(sys, tier);
      LaunchExactly(p.current, p.event, tier, now);
      TickChanges(p.current, tier, now);
      CasLinear(sys, tier, t.state, p.current.version, Timed(p.event, now));
      var sys' := Cas(sys, tier, t.state, p.current.version, Timed(p.event, now));
      CasWrites(sys, tier, t.state, p.current.version, Timed(p.event, now));
      assert LaunchesFresh(sys, tier);
      hide Linear;
      if t.shouldLaunch {
        forall i | 0 <= i < |sys.launches| ensures sys.launches[i].version < t.state.version {
          assert sys.launches[i].version <= old_.version;
        }
        LaunchLinear(sys', tier, r, t.state);
      } else {
        MovesLinear(sys', tier, r, Idle);
      }
    }
  }

  // A freshly stored launch joins the record.
  lemma LaunchLinear(sys: System, tier: Tier, r: nat, launched: State)
    requires Linear(sys, tier) && Current(sys, tier) == launched && Sound(launched, tier) && InLaunch(launched, tier)
    requires forall i :: 0 <= i < |sys.launches| ==> sys.launches[i].version < launched.version
    ensures Linear(Launches(Moves(sys, r, Creating(launched)), launched), tier)
  {
    MovesLinear(sys, tier, r, Creating(launched));
    var next := Moves(sys, r, Creating(launched));
    forall q | q in next.replicas ensures ReplicaFresh(next.replicas[q], Launches(next, launched), tier) {
      assert ReplicaFresh(next.replicas[q], next, tier);
    }
  }

  lemma CasWrites(sys: System, tier: Tier, next: State, expected: nat, entry: Timed)
    ensures var sys' := Cas(sys, tier, next, expected, entry);
            && sys'.launches == sys.launches && sys'.replicas == sys.replicas
            && (Current(sys, tier).version == expected ==> Current(sys', tier) == next)
            && (Current(sys, tier).version != expected ==> sys' == sys)
  {
  }

  lemma TickChanges(s: State, tier: Tier, now: int)
    requires WellFormed(s, tier)
    ensures Reduce(s, Tick, tier, now).changed ==> Reduce(s, Tick, tier, now).state != s
    ensures Reduce(s, Tick, tier, now).shouldLaunch ==> s.status == Countdown
    ensures InLaunch(s, tier) ==> !Reduce(s, Tick, tier, now).changed
  {
  }

  lemma MarkLinear(sys: System, tier: Tier, r: nat, launched: State, game: string)
    requires Linear(sys, tier) && Sound(launched, tier) && ReplicaFresh(Creating(launched), sys, tier)
    ensures Linear(MarkStep(sys, tier, r, launched, game), tier)
  {
    hide Reduce, WellFormed, Cas;
    ReduceKeeps(launched, Launched(game), tier, 0);
    LaunchSaves(launched, tier, game);
    var marked := Reduce(launched, Launched(game), tier, 0).state;
    CasLinear(sys, tier, marked, launched.version, Timed(Launched(game), 0));
    CasWrites(sys, tier, marked, launched.version, Timed(Launched(game), 0));
    MovesLinear(Cas(sys, tier, marked, launched.version, Timed(Launched(game), 0)), tier, r, Clearing(launched, marked));
  }

  lemma ResetLinear(sys: System, tier: Tier, r: nat, base: State)
    requires Linear(sys, tier) && Sound(base, tier)
    ensures Linear(ResetStep(sys, tier, r, base), tier)
  {
    hide Reduce, WellFormed, Cas;
    ReduceKeeps(base, Reset, tier, 0);
    LaunchSaves(base, tier, "");
    LaunchSaves(Current(sys, tier), tier, "");
    var next := Reduce(base, Reset, tier, 0).state;
    CasLinear(sys, tier, next, base.version, Timed(Reset, 0));
    MovesLinear(Cas(sys, tier, next, base.version, Timed(Reset, 0)), tier, r, Idle);
  }

  lemma StepLinear(sys: System, tier: Tier, a: Action)
    requires Linear(sys, tier) && Fresh(sys, tier, a)
    ensures Linear(Step(sys, tier, a), tier)
  {
    hide Reduce, WellFormed, MarkStep, ResetStep;
    var p := At(sys, a.r);
    assert ReplicaSound(p, tier) && ReplicaFresh(p, sys, tier);
    match a
    case Begin(r, e) => if p.Idle? { MovesLinear(sys, tier, r, Loading(e, 0)); }
    case Load(r) =>
      if p.Loading? { MovesLinear(sys, tier, r, Loaded(p.event, p.attempt, Current(sys, tier), sys.ticks)); }
    case Save(r, now) =>
      if p.Loaded? {
        if Writes(sys, tier, a) { SaveLinear(sys, tier, r, p, now); }
        else {
          MovesLinear(sys, tier, r, Idle);
          MovesLinear(sys, tier, r, Loading(p.event, p.attempt + 1));
        }
      }
    case GameCreated(r, game) => if p.Creating? { MovesLinear(sys, tier, r, Marking(p.launched, game)); }
    case SaveMarked(r) => if p.Marking? { MarkLinear(sys, tier, r, p.launched, p.game); }
    case SaveReset(r) =>
      if p.Clearing? { ResetLinear(sys, tier, r, p.marked); }
      else if p.Resetting? { ResetLinear(sys, tier, r, p.launched); }
    case LaunchFails(r) =>
      if p.Creating? || p.Marking? || p.Clearing? { MovesLinear(sys, tier, r, Resetting(p.launched)); }
  }

  lemma {:induction false} RunLinear(sys: System, tier: Tier, run: seq<Action>)
    requires Linear(sys, tier) && Untorn(sys, tier, run)
    ensures Linear(Run(sys, tier, run), tier)
  {
    if run != [] {
      var front := run[..|run| - 1];
      forall k | 0 <= k < |front| ensures Fresh(Run(sys, tier, front[..k]), tier, front[k]) {
        assert front[..k] == run[..k];
      }
      RunLinear(sys, tier, front);
      StepLinear(Run(sys, tier, front), tier, run[|run| - 1]);
    }
  }

  // ---- Launches in the log -------------------------------------------------

  function Stored(tier: Tier, log: seq<Timed>): State {
    Fold(EmptyLobby(tier.id), tier, log)
  }

  // The saved event before this point of the log launched the lobby.
  predicate LaunchedBy(tier: Tier, log: seq<Timed>, at: nat) {
    && 0 < at <= |log|
    && var e := log[at - 1];
       Reduce(Stored(tier, log[..at - 1]), e.event, tier, e.now).shouldLaunch
  }

  predicate LaunchesLogged(sys: System, tier: Tier) {
    && |sys.launchedAt| == |sys.launches|
    && (forall i :: 0 <= i < |sys.launchedAt| ==>
          LaunchedBy(tier, sys.log, sys.launchedAt[i]) && sys.launches[i] == Stored(tier, sys.log[..sys.launchedAt[i]]))
    && forall i, j :: 0 <= i < j < |sys.launchedAt| ==> sys.launchedAt[i] < sys.launchedAt[j]
  }

  // An admin opened or a launch cleared the lobby in this stretch of the log.
  predicate Reopened(log: seq<Timed>, low: nat, high: nat) {
    exists k :: low <= k < high <= |log| && (log[k].event.Open? || log[k].event.Reset?)
  }

  lemma {:induction false} LaunchHolds(tier: Tier, log: seq<Timed>, low: nat, high: nat)
    requires low <= high <= |log| && InLaunch(Stored(tier, log[..low]), tier) && !Reopened(log, low, high)
    ensures InLaunch(Stored(tier, log[..high]), tier)
    decreases high
  {
    if low < high {
      assert !Reopened(log, low, high - 1) by {
        if Reopened(log, low, high - 1) {
          var k :| low <= k < high - 1 <= |log| && (log[k].event.Open? || log[k].event.Reset?);
          assert Reopened(log, low, high);
        }
      }
      LaunchHolds(tier, log, low, high - 1);
      assert log[..high][..high - 1] == log[..high - 1];
      LaunchStays(Stored(tier, log[..high - 1]), log[high - 1].event, tier, log[high - 1].now);
    }
  }

  // Only an open or a reset ends a launch, and nothing launches during one.
  lemma LaunchStays(s: State, e: Event, tier: Tier, now: int)
    requires InLaunch(s, tier)
    ensures !e.Open? && !e.Reset? ==> InLaunch(Reduce(s, e, tier, now).state, tier)
    ensures !Reduce(s, e, tier, now).shouldLaunch
  {
  }

  lemma LaunchBecomes(s: State, e: Event, tier: Tier, now: int)
    requires WellFormed(s, tier) && Reduce(s, e, tier, now).shouldLaunch
    ensures InLaunch(Reduce(s, e, tier, now).state, tier)
  {
    LaunchExactly(s, e, tier, now);
  }

  lemma LaunchesApart(tier: Tier, log: seq<Timed>, a: nat, b: nat)
    requires a < b && LaunchedBy(tier, log, a) && LaunchedBy(tier, log, b)
    ensures Reopened(log, a, b)
  {
    hide Reduce, InLaunch, WellFormed;
    if !Reopened(log, a, b - 1) {
      var e := log[a - 1];
      FoldWellFormed(EmptyLobby(tier.id), tier, log[..a - 1]);
      LaunchBecomes(Stored(tier, log[..a - 1]), e.event, tier, e.now);
      assert log[..a][..a - 1] == log[..a - 1];
      LaunchHolds(tier, log, a, b - 1);
      LaunchStays(Stored(tier, log[..b - 1]), log[b - 1].event, tier, log[b - 1].now);
    } else {
      var k :| a <= k < b - 1 <= |log| && (log[k].event.Open? || log[k].event.Reset?);
      assert Reopened(log, a, b);
    }
  }

  lemma LoggedGrows(tier: Tier, log: seq<Timed>, entry: Timed, at: nat)
    requires LaunchedBy(tier, log, at)
    ensures LaunchedBy(tier, log + [entry], at) && (log + [entry])[..at] == log[..at]
  {
    assert (log + [entry])[..at - 1] == log[..at - 1];
  }

  lemma CasLogged(sys: System, tier: Tier, next: State, expected: nat, entry: Timed)
    requires LaunchesLogged(sys, tier)
    ensures LaunchesLogged(Cas(sys, tier, next, expected, entry), tier)
  {
    hide LaunchedBy, Stored;
    forall i | 0 <= i < |sys.launchedAt| { LoggedGrows(tier, sys.log, entry, sys.launchedAt[i]); }
  }

  lemma StepLogged(sys: System, tier: Tier, a: Action)
    requires Linear(sys, tier) && LaunchesLogged(sys, tier) && Fresh(sys, tier, a)
    ensures LaunchesLogged(Step(sys, tier, a), tier)
  {
    assert Current(sys, tier) == Stored(tier, sys.log);
    hide Reduce, WellFormed, LaunchedBy, LaunchesFresh, Cas, Stored;
    var p := At(sys, a.r);
    assert ReplicaFresh(p, sys, tier);
    match a
    case Save(r, now) =>
      if Writes(sys, tier, a) {
        var t := Reduce(p.current, p.event, tier, now);
        CasLogged(sys, tier, t.state, p.current.version, Timed(p.event, now));
        if t.shouldLaunch { LaunchLogged(sys, tier, t.state, Timed(p.event, now)); }
      }
    case SaveMarked(r) =>
      if p.Marking? {
        CasLogged(sys, tier, Reduce(p.launched, Launched(p.game), tier, 0).state, p.launched.version, Timed(Launched(p.game), 0));
      }
    case SaveReset(r) =>
      if p.Clearing? {
        CasLogged(sys, tier, Reduce(p.marked, Reset, tier, 0).state, p.marked.version, Timed(Reset, 0));
      } else if p.Resetting? {
        CasLogged(sys, tier, Reduce(p.launched, Reset, tier, 0).state, p.launched.version, Timed(Reset, 0));
      }
    case _ =>
  }

  lemma LaunchLogged(sys: System, tier: Tier, next: State, entry: Timed)
    requires LaunchesLogged(sys, tier) && Current(sys, tier) == Stored(tier, sys.log)
    requires var t := Reduce(Current(sys, tier), entry.event, tier, entry.now); t.state == next && t.shouldLaunch
    ensures LaunchesLogged(Launches(Cas(sys, tier, next, Current(sys, tier).version, entry), next), tier)
  {
    hide Reduce;
    var log' := sys.log + [entry];
    assert log'[..|sys.log|] == sys.log && log'[..|log'|] == log' && log'[..|log'| - 1] == sys.log;
    forall i | 0 <= i < |sys.launchedAt| { LoggedGrows(tier, sys.log, entry, sys.launchedAt[i]); }
  }

  lemma {:induction false} RunLogged(sys: System, tier: Tier, run: seq<Action>)
    requires Linear(sys, tier) && LaunchesLogged(sys, tier) && Untorn(sys, tier, run)
    ensures LaunchesLogged(Run(sys, tier, run), tier)
  {
    hide Linear, LaunchesLogged, Step, Fresh;
    if run != [] {
      var front := run[..|run| - 1];
      forall k | 0 <= k < |front| ensures Fresh(Run(sys, tier, front[..k]), tier, front[k]) {
        assert front[..k] == run[..k];
      }
      RunLinear(sys, tier, front);
      RunLogged(sys, tier, front);
      assert run[..|run| - 1] == front && Fresh(Run(sys, tier, run[..|run| - 1]), tier, run[|run| - 1]);
      StepLogged(Run(sys, tier, front), tier, run[|run| - 1]);
    }
  }

  // The stored lobby is the reducer folded over the saved events in save order,
  // including the two launch saves whose results are ignored, and between any
  // two launches the lobby was opened or cleared.
  lemma ReplicasLinearize(tier: Tier, run: seq<Action>)
    requires Untorn(Initial(), tier, run)
    ensures var sys := Run(Initial(), tier, run);
            && Current(sys, tier) == Fold(EmptyLobby(tier.id), tier, sys.log)
            && |sys.launchedAt| == |sys.launches|
            && (forall i, j :: 0 <= i < j < |sys.launches| ==> Reopened(sys.log, sys.launchedAt[i], sys.launchedAt[j]))
  {
    RunLinear(Initial(), tier, run);
    RunLogged(Initial(), tier, run);
    var sys := Run(Initial(), tier, run);
    hide LaunchedBy, Reopened, Run;
    forall i, j | 0 <= i < j < |sys.launches| ensures Reopened(sys.log, sys.launchedAt[i], sys.launchedAt[j]) {
      LaunchesApart(tier, sys.log, sys.launchedAt[i], sys.launchedAt[j]);
    }
  }

  predicate TickFree(sys: System) {
    && sys.ticks == 0
    && forall r :: r in sys.replicas ==>
         && (sys.replicas[r].Loading? || sys.replicas[r].Loaded? ==> !sys.replicas[r].event.Tick?)
         && (sys.replicas[r].Loaded? ==> sys.replicas[r].ticksSeen == 0)
  }

  // Runs of the version-raising events alone are never torn: there a version
  // number identifies the stored state.
  lemma {:induction false} WithoutTicksUntorn(sys: System, tier: Tier, run: seq<Action>)
    requires TickFree(sys)
    requires forall i :: 0 <= i < |run| && run[i].Begin? ==> !run[i].event.Tick?
    ensures TickFree(Run(sys, tier, run)) && Untorn(sys, tier, run)
  {
    if run != [] {
      var front, last := run[..|run| - 1], run[|run| - 1];
      WithoutTicksUntorn(sys, tier, front);
      assert run[|front|] == last && run[..|front|] == front;
      TickFreeStep(Run(sys, tier, front), tier, last);
      hide TickFree, Fresh, Step;
      forall k | 0 <= k < |run| ensures Fresh(Run(sys, tier, run[..k]), tier, run[k]) {
        if k < |front| {
          assert Fresh(Run(sys, tier, front[..k]), tier, front[k]);
          assert front[..k] == run[..k];
        }
      }
    }
  }

  lemma TickFreeStep(sys: System, tier: Tier, a: Action)
    requires TickFree(sys) && (a.Begin? ==> !a.event.Tick?)
    ensures TickFree(Step(sys, tier, a)) && Fresh(sys, tier, a)
  {
    hide Reduce;
  }

  // ---- What a torn tick does -----------------------------------------------

  const FREE_TIER := Tier("practice", 0, 1, None, 10, 5)
  const ANN := Entrant("ann", "Ann", "w1")
  const BOB := Entrant("bob", "Bob", "w2")
  const ANN_SEAT := Player("ann", "Ann", "w1", 0, false)
  const BOB_SEAT := Player("bob", "Bob", "w2", 10000, false)
  const COUNTING := State("practice", Countdown, [ANN_SEAT], Some(10000), None, false, 1)
  const ALONE := State("practice", Launching, [ANN_SEAT], None, None, false, 1)
  const BOTH := State("practice", Launching, [ANN_SEAT, BOB_SEAT], None, None, false, 2)

  lemma AnnJoins()
    ensures Reduce(EmptyLobby("practice"), Join(ANN), FREE_TIER, 0) == Moved(COUNTING)
  {
    assert [] + [ANN_SEAT] == [ANN_SEAT];
    assert !COUNTING.players[0].ready;
  }

  lemma TickLaunches()
    ensures Reduce(COUNTING, Tick, FREE_TIER, 10000) == Transition(ALONE, true, None, true)
  {
  }

  lemma BobJoins()
    ensures Reduce(COUNTING, Join(BOB), FREE_TIER, 10000) == Transition(BOTH, true, None, true)
  {
    assert [ANN_SEAT] + [BOB_SEAT] == [ANN_SEAT, BOB_SEAT];
    assert !COUNTING.players[0].ready;
  }

  lemma BobTooLate()
    ensures Reduce(ALONE, Join(BOB), FREE_TIER, 10000) == Unchanged(ALONE, Some(LobbyLaunching))
  {
  }

  // Ann is queued and Bob has loaded that lobby.
  lemma TornStart(run: seq<Action>)
    requires run == [Begin(0, Join(ANN)), Load(0), Save(0, 0), Begin(1, Join(BOB)), Load(1)]
    ensures var sys := Run(Initial(), FREE_TIER, run);
            && sys.cell == Some(COUNTING) && sys.launches == [] && sys.log == [Timed(Join(ANN), 0)] && sys.ticks == 0
            && sys.replicas == map[0 := Idle, 1 := Loaded(Join(BOB), 0, COUNTING, 0)]
  {
    hide Reduce;
    AnnJoins();
    RunThree(Initial(), FREE_TIER, [], run[0], run[1], run[2], run[..3]);
    var s3 := Run(Initial(), FREE_TIER, run[..3]);
    assert s3.cell == Some(COUNTING) && s3.log == [Timed(Join(ANN), 0)] && s3.replicas == map[0 := Idle];
    RunTwo(Initial(), FREE_TIER, run[..3], run[3], run[4], run);
  }

  lemma TornSteps(run: seq<Action>)
    requires run == [Begin(0, Join(ANN)), Load(0), Save(0, 0), Begin(1, Join(BOB)), Load(1),
                     Begin(0, Tick), Load(0), Save(0, 10000), Save(1, 10000)]
    ensures var sys := Run(Initial(), FREE_TIER, run);
            && sys.cell == Some(BOTH) && sys.launches == [ALONE, BOTH]
            && sys.log == [Timed(Join(ANN), 0), Timed(Tick, 10000), Timed(Join(BOB), 10000)]
  {
    hide Reduce;
    TornStart(run[..5]);
    TickLaunches();
    BobJoins();
    RunThree(Initial(), FREE_TIER, run[..5], run[5], run[6], run[7], run[..8]);
    var s5, s8 := Run(Initial(), FREE_TIER, run[..5]), Run(Initial(), FREE_TIER, run[..8]);
    assert run[..|run| - 1] == run[..8];
    assert Run(Initial(), FREE_TIER, run) == Step(s8, FREE_TIER, Save(1, 10000));
    hide Run;
    assert s8.cell == Some(ALONE) && s8.launches == [ALONE] && At(s8, 1) == At(s5, 1);
    assert s8.log == [Timed(Join(ANN), 0), Timed(Tick, 10000)];
  }

  // A tick does not raise the version, so a join loaded before an expiring tick
  // is saved over it. Both saves launch, taking the same player into two games,
  // and the stored lobby is no longer the fold of the saved events.
  lemma TornTickLaunchesTwice()
    ensures exists tier: Tier, run: seq<Action> ::
              var sys := Run(Initial(), tier, run);
              && |sys.launches| == 2
              && |sys.launches[0].players| == 1 && |sys.launches[1].players| == 2
              && sys.launches[0].players[0] == sys.launches[1].players[0]
              && Current(sys, tier) != Fold(EmptyLobby(tier.id), tier, sys.log)
  {
    hide Reduce;
    var run := [Begin(0, Join(ANN)), Load(0), Save(0, 0), Begin(1, Join(BOB)), Load(1),
                Begin(0, Tick), Load(0), Save(0, 10000), Save(1, 10000)];
    TornSteps(run);
    AnnJoins();
    TickLaunches();
    BobTooLate();
    var e0, e1, e2 := Timed(Join(ANN), 0), Timed(Tick, 10000), Timed(Join(BOB), 10000);
    FoldSnoc(EmptyLobby("practice"), FREE_TIER, [], e0, [e0]);
    FoldSnoc(EmptyLobby("practice"), FREE_TIER, [e0], e1, [e0, e1]);
    FoldSnoc(EmptyLobby("practice"), FREE_TIER, [e0, e1], e2, [e0, e1, e2]);
    var sys := Run(Initial(), FREE_TIER, run);
    assert Current(sys, FREE_TIER) != Fold(EmptyLobby(FREE_TIER.id), FREE_TIER, sys.log);
  }

  lemma FoldSnoc(s: State, tier: Tier, run: seq<Timed>, e: Timed, all: seq<Timed>)
    requires all == run + [e]
    ensures Fold(s, tier, all) == Reduce(Fold(s, tier, run), e.event, tier, e.now).state
  {
    assert all[..|all| - 1] == run;
  }

  lemma RunTwo(sys: System, tier: Tier, run: seq<Action>, a: Action, b: Action, all: seq<Action>)
    requires all == run + [a, b]
    ensures Run(sys, tier, all) == Step(Step(Run(sys, tier, run), tier, a), tier, b)
  {
    assert all[..|all| - 1] == run + [a];
    assert (run + [a])[..|run|] == run;
  }

  lemma RunThree(sys: System, tier: Tier, run: seq<Action>, a: Action, b: Action, c: Action, all: seq<Action>)
    requires all == run + [a, b, c]
    ensures Run(sys, tier, all) == Step(Step(Step(Run(sys, tier, run), tier, a), tier, b), tier, c)
  {
    assert all[..|all| - 1] == run + [a, b];
    RunTwo(sys, tier, run, a, b, run + [a, b]);
  }
}
