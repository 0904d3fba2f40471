// What a save does to a lobby that ticks have changed since its load: exactly
// when it still writes what the reducer would, and what happens when it does not.
module LobbyTorn {
  import opened Lobby
  import opened LobbyReplicas
  import opened Options

  // ---- Settling in closed form ---------------------------------------------

  predicate Expired(s: State, now: int) {
    s.status == Countdown && s.countdownEndsAt.Some? && now >= s.countdownEndsAt.value
  }

  // Who is left once an expired paid countdown has dropped its unpaid players.
  function Kept(s: State, tier: Tier, now: int): seq<Player> {
    if Expired(s, now) && |s.players| >= tier.minPlayers && tier.entryFee > 0 then Paid(s.players) else s.players
  }

  predicate Ends(s: State, now: int) {
    s.status == Launching || Expired(s, now)
  }

  // A running deadline may be brought forward, never put off.
  function Soonest(s: State, tier: Tier, now: int): int {
    var candidate := now + TimerSeconds(s.players, tier) * 1000;
    if s.status == Countdown && s.countdownEndsAt.Some? && s.countdownEndsAt.value < candidate then s.countdownEndsAt.value
    else candidate
  }

  lemma SettleClosedForm(s: State, tier: Tier, now: int, mutated: bool)
    requires Settleable(s, tier) && !s.scheduled
    ensures var kept := Kept(s, tier, now);
            var status := if |kept| < tier.minPlayers then Waiting else if Ends(s, now) then Launching else Countdown;
            Settle(s, tier, now, mutated).state ==
              s.(players := kept, status := status,
                 countdownEndsAt := if status == Countdown then Some(Soonest(s, tier, now)) else None)
  {
  }

  // The same lobby up to what ticks change.
  predicate Siblings(c: State, n: State) {
    c.tierId == n.tierId && c.gameId == n.gameId && c.scheduled == n.scheduled && c.version == n.version
  }

  // Two siblings settle to one state.
  predicate SettleAlike(c: State, n: State, tier: Tier, now: int) {
    if c.scheduled then c == n
    else
      && Kept(c, tier, now) == Kept(n, tier, now)
      && (|Kept(c, tier, now)| < tier.minPlayers
          || (Ends(c, now) && Ends(n, now))
          || (!Ends(c, now) && !Ends(n, now) && Soonest(c, tier, now) == Soonest(n, tier, now)))
  }

  lemma SettleAgreesIff(c: State, n: State, tier: Tier, now: int, mutated: bool)
    requires Settleable(c, tier) && Settleable(n, tier) && Siblings(c, n)
    ensures Settle(c, tier, now, mutated).state == Settle(n, tier, now, mutated).state <==> SettleAlike(c, n, tier, now)
  {
    if !c.scheduled {
      SettleClosedForm(c, tier, now, mutated);
      SettleClosedForm(n, tier, now, mutated);
      hide Settle, Kept, Ends, Soonest;
    }
  }

  // Whether the event, reduced from the loaded lobby, fits the stored one.
  predicate Alike(c: State, n: State, e: Event, tier: Tier, now: int) {
    match e
    case Reset => true
    case Open(_, _) => c.players == n.players
    case Launched(_) => c.players == n.players
    case Close => n.status != Launching && c.players == n.players
    case Tick => SettleAlike(c, n, tier, now)
    case _ =>
      var a, b := Admit(c, e, tier, now), Admit(n, e, tier, now);
      a.Ok? && a.value.Some? && b.Ok? && b.value.Some? && SettleAlike(a.value.value, b.value.value, tier, now)
  }

  // A save writes what the reducer would have made of the stored lobby: a reset
  // always; an open or a launch's mark when the rosters agree; a close when they
  // agree and nothing launched; the rest when the stored lobby admits the event
  // and settles alike.
  lemma SaveAgreesIff(c: State, n: State, e: Event, tier: Tier, now: int)
    requires WellFormed(c, tier) && WellFormed(n, tier) && Siblings(c, n)
    requires Reduce(c, e, tier, now).rejected.None? && Reduce(c, e, tier, now).changed
    ensures Reduce(c, e, tier, now).state == Reduce(n, e, tier, now).state <==> Alike(c, n, e, tier, now)
  {
    match e
    case Tick => SettleAgreesIff(c, n, tier, now, false);
    case Open(_, _) =>
    case Close =>
    case Launched(_) =>
    case Reset =>
    case _ => AdmittedAgreesIff(c, n, e, tier, now);
  }

  lemma AdmittedAgreesIff(c: State, n: State, e: Event, tier: Tier, now: int)
    requires e.Join? || e.Leave? || e.Ready?
    requires WellFormed(c, tier) && WellFormed(n, tier) && Siblings(c, n)
    requires Reduce(c, e, tier, now).rejected.None? && Reduce(c, e, tier, now).changed
    ensures Reduce(c, e, tier, now).state == Reduce(n, e, tier, now).state <==> Alike(c, n, e, tier, now)
  {
    var a, b := Admit(c, e, tier, now), Admit(n, e, tier, now);
    AdmitKeeps(c, e, tier, now);
    AdmitKeeps(n, e, tier, now);
    AdmitKin(c, e, tier, now);
    AdmitKin(n, e, tier, now);
    hide Admit;
    SettleKeeps(a.value.value, tier, now, true);
    hide WellFormed, SettleAlike;
    if b.Ok? && b.value.Some? { SettleAgreesIff(a.value.value, b.value.value, tier, now, true); }
  }

  lemma AdmitKin(s: State, e: Event, tier: Tier, now: int)
    requires e.Join? || e.Leave? || e.Ready?
    ensures var a := Admit(s, e, tier, now);
            a.Ok? && a.value.Some? ==>
              && a.value.value.tierId == s.tierId && a.value.value.gameId == s.gameId
              && a.value.value.scheduled == s.scheduled && a.value.value.version == s.version + 1
  {
  }

  // ---- In every run the loaded and the stored lobby are siblings -----------

  // A held lobby is older than the stored one, or its sibling.
  predicate HeldKin(s: State, now: State) {
    s.version <= now.version && (s.version == now.version ==> Siblings(s, now))
  }

  predicate ReplicaKin(p: Replica, now: State) {
    match p
    case Idle => true
    case Loading(_, _) => true
    case Loaded(_, _, c, _) => HeldKin(c, now)
    case _ => HeldKin(p.launched, now)
  }

  predicate Kin(sys: System, tier: Tier) {
    forall r :: r in sys.replicas ==> ReplicaKin(sys.replicas[r], Current(sys, tier))
  }

  lemma ReduceKin(s: State, e: Event, tier: Tier, now: int)
    ensures Reduce(s, Tick, tier, now).state.gameId == s.gameId && Reduce(s, Tick, tier, now).state.scheduled == s.scheduled
    ensures Reduce(s, e, tier, now).state.tierId == s.tierId
  {
  }

  lemma CasKin(sys: System, tier: Tier, next: State, expected: nat, entry: Timed)
    requires Kin(sys, tier)
    requires Current(sys, tier).version == expected ==> next.version > expected || Siblings(next, Current(sys, tier))
    ensures Kin(Cas(sys, tier, next, expected, entry), tier)
  {
    var sys' := Cas(sys, tier, next, expected, entry);
    forall r | r in sys'.replicas ensures ReplicaKin(sys'.replicas[r], Current(sys', tier)) {
      assert ReplicaKin(sys.replicas[r], Current(sys, tier));
    }
  }

  lemma MovesKin(sys: System, tier: Tier, r: nat, to: Replica)
    requires Kin(sys, tier) && ReplicaKin(to, Current(sys, tier))
    ensures Kin(Moves(sys, r, to), tier)
  {
    hide ReplicaKin;
  }

  lemma StepKin(sys: System, tier: Tier, a: Action)
    requires Safe(sys, tier) && Kin(sys, tier)
    ensures Kin(Step(sys, tier, a), tier)
  {
    hide Reduce, WellFormed, Cas;
    var p := At(sys, a.r);
    assert ReplicaSound(p, tier) && ReplicaKin(p, Current(sys, tier));
    match a
    case Begin(r, e) => if p.Idle? { MovesKin(sys, tier, r, Loading(e, 0)); }
    case Load(r) =>
      if p.Loading? { MovesKin(sys, tier, r, Loaded(p.event, p.attempt, Current(sys, tier), sys.ticks)); }
    case Save(r, now) => if p.Loaded? { SaveKin(sys, tier, r, p, now); }
    case GameCreated(r, game) => if p.Creating? { MovesKin(sys, tier, r, Marking(p.launched, game)); }
    case SaveMarked(r) => if p.Marking? { MarkKin(sys, tier, r, p.launched, p.game); }
    case SaveReset(r) =>
      if p.Clearing? { ResetKin(sys, tier, r, p.marked); }
      else if p.Resetting? { ResetKin(sys, tier, r, p.launched); }
    case LaunchFails(r) =>
      if p.Creating? || p.Marking? || p.Clearing? { MovesKin(sys, tier, r, Resetting(p.launched)); }
  }

  lemma SaveKin(sys: System, tier: Tier, r: nat, p: Replica, now: int)
    requires Safe(sys, tier) && Kin(sys, tier) && p.Loaded? && ReplicaSound(p, tier) && ReplicaKin(p, Current(sys, tier))
    ensures Kin(SaveStep(sys, tier, r, p, now), tier)
  {
    hide Reduce, WellFormed, Cas;
    var t := Reduce(p.current, p.event, tier, now);
    ReduceKeeps(p.current, p.event, tier, now);
    ReduceKin(p.current, p.event, tier, now);
    if t.rejected.Some? || !t.changed {
      MovesKin(sys, tier, r, Idle);
    } else if Current(sys, tier).version != p.current.version {
      MovesKin(sys, tier, r, Idle);
      MovesKin(sys, tier, r, Loading(p.event, p.attempt + 1));
    } else {
      CasKin(sys, tier, t.state, p.current.version, Timed(p.event, now));
      var sys' := Cas(sys, tier, t.state, p.current.version, Timed(p.event, now));
      CasWrites(sys, tier, t.state, p.current.version, Timed(p.event, now));
      MovesKin(sys', tier, r, Idle);
      MovesKin(sys', tier, r, Creating(t.state));
    }
  }

  lemma MarkKin(sys: System, tier: Tier, r: nat, launched: State, game: string)
    requires Kin(sys, tier) && HeldKin(launched, Current(sys, tier))
    ensures Kin(MarkStep(sys, tier, r, launched, game), tier)
  {
    hide Reduce, Cas;
    LaunchSaves(launched, tier, game);
    var marked := Reduce(launched, Launched(game), tier, 0).state;
    CasKin(sys, tier, marked, launched.version, Timed(Launched(game), 0));
    CasWrites(sys, tier, marked, launched.version, Timed(Launched(game), 0));
    MovesKin(Cas(sys, tier, marked, launched.version, Timed(Launched(game), 0)), tier, r, Clearing(launched, marked));
  }

  lemma ResetKin(sys: System, tier: Tier, r: nat, base: State)
    requires Kin(sys, tier)
    ensures Kin(ResetStep(sys, tier, r, base), tier)
  {
    hide Reduce, Cas;
    LaunchSaves(base, tier, "");
    var next := Reduce(base, Reset, tier, 0).state;
    CasKin(sys, tier, next, base.version, Timed(Reset, 0));
    MovesKin(Cas(sys, tier, next, base.version, Timed(Reset, 0)), tier, r, Idle);
  }

  lemma {:induction false} RunKin(tier: Tier, run: seq<Action>)
    ensures Safe(Run(Initial(), tier, run), tier) && Kin(Run(Initial(), tier, run), tier)
  {
    if run != [] {
      RunKin(tier, run[..|run| - 1]);
      hide Safe, Kin, Step;
      StepSafe(Run(Initial(), tier, run[..|run| - 1]), tier, run[|run| - 1]);
      StepKin(Run(Initial(), tier, run[..|run| - 1]), tier, run[|run| - 1]);
    }
  }

  // ---- The fold theorem, exactly -------------------------------------------

  predicate Folds(sys: System, tier: Tier) {
    Current(sys, tier) == Fold(EmptyLobby(tier.id), tier, sys.log)
  }

  // The step writes nothing, or fits the stored lobby.
  predicate Fits(sys: System, tier: Tier, a: Action) {
    var p, stored := At(sys, a.r), Current(sys, tier);
    && (Writes(sys, tier, a) ==> Alike(p.current, stored, p.event, tier, a.now))
    && (a.SaveMarked? && p.Marking? && p.launched.version == stored.version ==> p.launched.players == stored.players)
  }

  lemma StepFoldsIff(sys: System, tier: Tier, a: Action)
    requires Safe(sys, tier) && Kin(sys, tier) && Folds(sys, tier)
    ensures Folds(Step(sys, tier, a), tier) <==> Fits(sys, tier, a)
  {
    var p, stored := At(sys, a.r), Current(sys, tier);
    assert ReplicaSound(p, tier) && ReplicaKin(p, stored);
    hide Reduce, Alike, WellFormed, Fold;
    match a
    case Save(r, now) =>
      if Writes(sys, tier, a) {
        SaveAgreesIff(p.current, stored, p.event, tier, now);
        FoldSnoc(EmptyLobby(tier.id), tier, sys.log, Timed(p.event, now), sys.log + [Timed(p.event, now)]);
      }
    case SaveMarked(r) =>
      if p.Marking? && p.launched.version == stored.version {
        LaunchSaves(p.launched, tier, p.game);
        LaunchSaves(stored, tier, p.game);
        var e := Timed(Launched(p.game), 0);
        FoldSnoc(EmptyLobby(tier.id), tier, sys.log, e, sys.log + [e]);
      }
    case SaveReset(r) =>
      LaunchSaves(stored, tier, "");
      if p.Clearing? { LaunchSaves(p.marked, tier, ""); } else if p.Resetting? { LaunchSaves(p.launched, tier, ""); }
      FoldSnoc(EmptyLobby(tier.id), tier, sys.log, Timed(Reset, 0), sys.log + [Timed(Reset, 0)]);
    case _ =>
  }

  predicate AlwaysFolds(tier: Tier, run: seq<Action>) {
    forall k :: 0 <= k <= |run| ==> Folds(Run(Initial(), tier, run[..k]), tier)
  }

  predicate AlwaysFits(tier: Tier, run: seq<Action>) {
    forall k :: 0 <= k < |run| ==> Fits(Run(Initial(), tier, run[..k]), tier, run[k])
  }

  lemma FoldsSnoc(tier: Tier, run: seq<Action>, a: Action)
    ensures AlwaysFolds(tier, run + [a]) <==> AlwaysFolds(tier, run) && Folds(Run(Initial(), tier, run + [a]), tier)
  {
    hide Folds, Run;
    var longer := run + [a];
    assert longer[..|longer|] == longer;
    assert forall k :: 0 <= k <= |run| ==> longer[..k] == run[..k];
    if AlwaysFolds(tier, longer) {
      forall k | 0 <= k <= |run| ensures Folds(Run(Initial(), tier, run[..k]), tier) {
        assert Folds(Run(Initial(), tier, longer[..k]), tier);
      }
      assert Folds(Run(Initial(), tier, longer[..|longer|]), tier);
    }
  }

  lemma FitsSnoc(tier: Tier, run: seq<Action>, a: Action)
    ensures AlwaysFits(tier, run + [a]) <==> AlwaysFits(tier, run) && Fits(Run(Initial(), tier, run), tier, a)
  {
    hide Fits, Run;
    var longer := run + [a];
    assert longer[..|run|] == run && longer[|run|] == a;
    assert forall k :: 0 <= k < |run| ==> longer[..k] == run[..k] && longer[k] == run[k];
    if AlwaysFits(tier, longer) {
      forall k | 0 <= k < |run| ensures Fits(Run(Initial(), tier, run[..k]), tier, run[k]) {
        assert Fits(Run(Initial(), tier, longer[..k]), tier, longer[k]);
      }
      assert Fits(Run(Initial(), tier, longer[..|run|]), tier, longer[|run|]);
    }
  }

  // Throughout a run the stored lobby is the fold of the saved events exactly
  // when every save fits the lobby it writes over.
  lemma {:induction false} FoldsIffFits(tier: Tier, run: seq<Action>)
    ensures AlwaysFolds(tier, run) <==> AlwaysFits(tier, run)
  {
    if run != [] {
      var front, last := run[..|run| - 1], run[|run| - 1];
      assert run == front + [last];
      FoldsIffFits(tier, front);
      FoldsSnoc(tier, front, last);
      FitsSnoc(tier, front, last);
      if AlwaysFolds(tier, front) {
        RunKin(tier, front);
        assert Folds(Run(Initial(), tier, front[..|front|]), tier) && front[..|front|] == front;
        assert Run(Initial(), tier, run) == Step(Run(Initial(), tier, front), tier, last);
        hide Run, Folds, Fits, Safe, Kin, Step;
        StepFoldsIff(Run(Initial(), tier, front), tier, last);
      }
    }
  }

  // ---- Two ticks -----------------------------------------------------------

  const TWO_TICKS := [Begin(0, Join(ANN)), Load(0), Save(0, 0), Begin(1, Tick), Load(1),
                      Begin(0, Tick), Load(0), Save(0, 10000), Save(1, 10000)]

  lemma CountingLoaded(run: seq<Action>, e: Event)
    requires run == [Begin(0, Join(ANN)), Load(0), Save(0, 0), Begin(1, e), Load(1)]
    ensures Run(Initial(), FREE_TIER, run) ==
              System(Some(COUNTING), map[0 := Idle, 1 := Loaded(e, 0, COUNTING, 0)], [Timed(Join(ANN), 0)], 0, [], [])
  {
    hide Reduce;
    AnnJoins();
    RunThree(Initial(), FREE_TIER, [], run[0], run[1], run[2], run[..3]);
    var s3 := Run(Initial(), FREE_TIER, run[..3]);
    assert s3 == System(Some(COUNTING), map[0 := Idle], [Timed(Join(ANN), 0)], 0, [], []);
    RunTwo(Initial(), FREE_TIER, run[..3], run[3], run[4], run);
  }

  lemma FirstLaunch(sys: System)
    requires sys == System(Some(COUNTING), map[0 := Idle, 1 := Loaded(Tick, 0, COUNTING, 0)], [Timed(Join(ANN), 0)], 0, [], [])
    ensures Step(Step(Step(sys, FREE_TIER, Begin(0, Tick)), FREE_TIER, Load(0)), FREE_TIER, Save(0, 10000)) ==
              System(Some(ALONE), map[0 := Creating(ALONE), 1 := Loaded(Tick, 0, COUNTING, 0)],
                     [Timed(Join(ANN), 0), Timed(Tick, 10000)], 1, [ALONE], [2])
  {
    hide Reduce;
    TickLaunches();
    var s2 := Step(Step(sys, FREE_TIER, Begin(0, Tick)), FREE_TIER, Load(0));
    assert At(s2, 0) == Loaded(Tick, 0, COUNTING, 0);
  }

  lemma TwoTicks(run: seq<Action>)
    requires run == TWO_TICKS
    ensures var sys := Run(Initial(), FREE_TIER, run);
            && sys.cell == Some(ALONE) && sys.launches == [ALONE, ALONE] && sys.launchedAt == [2, 3]
            && sys.log == [Timed(Join(ANN), 0), Timed(Tick, 10000), Timed(Tick, 10000)]
  {
    CountingLoaded(run[..5], Tick);
    RunThree(Initial(), FREE_TIER, run[..5], run[5], run[6], run[7], run[..8]);
    FirstLaunch(Run(Initial(), FREE_TIER, run[..5]));
    var s8 := Run(Initial(), FREE_TIER, run[..8]);
    assert run[..|run| - 1] == run[..8];
    assert Run(Initial(), FREE_TIER, run) == Step(s8, FREE_TIER, Save(1, 10000));
    hide Run, Reduce;
    TickLaunches();
  }

  lemma TicksFold(log: seq<Timed>)
    requires log == [Timed(Join(ANN), 0), Timed(Tick, 10000), Timed(Tick, 10000)]
    ensures Fold(EmptyLobby("practice"), FREE_TIER, log) == ALONE
  {
    FoldSnoc(EmptyLobby("practice"), FREE_TIER, [], log[0], log[..1]);
    FoldSnoc(EmptyLobby("practice"), FREE_TIER, log[..1], log[1], log[..2]);
    FoldSnoc(EmptyLobby("practice"), FREE_TIER, log[..2], log[2], log);
    AnnJoins();
    TickLaunches();
    assert Reduce(ALONE, Tick, FREE_TIER, 10000).state == ALONE;
  }

  // Agreement with the fold does not keep launches apart: two replicas that both
  // loaded an expired countdown save the same launched lobby, one over the other,
  // and take one roster into two games.
  lemma TwoTicksLaunchTwice()
    ensures var sys := Run(Initial(), FREE_TIER, TWO_TICKS);
            && sys.launches == [ALONE, ALONE] && Folds(sys, FREE_TIER) && sys.launchedAt == [2, 3] && !Reopened(sys.log, 2, 3)
  {
    TwoTicks(TWO_TICKS);
    TicksFold(Run(Initial(), FREE_TIER, TWO_TICKS).log);
    hide Run, Fold;
  }
}
