// Exactly when a launched lobby stays launched, and launches no second time,
// until it is opened or cleared.
module LobbyHeld {
  import opened Lobby
  import opened LobbyReplicas
  import opened LobbyTorn

  // Nothing saved since the last launch opened or cleared the lobby.
  predicate Pending(sys: System) {
    |sys.launchedAt| > 0 && !Reopened(sys.log, sys.launchedAt[|sys.launchedAt| - 1], |sys.log|)
  }

  // The step launches nothing over a pending launch and leaves it launched, or
  // opens or clears the lobby.
  predicate HoldsStep(sys: System, tier: Tier, a: Action) {
    var after := Step(sys, tier, a);
    Pending(sys) ==> after.launches == sys.launches && (Pending(after) ==> InLaunch(Current(after, tier), tier))
  }

  // Over a launched lobby only these are saved: an opening, a clearing, and a
  // close or a launch's mark loaded with enough players.
  predicate Spares(sys: System, tier: Tier, a: Action) {
    var p := At(sys, a.r);
    Pending(sys) && InLaunch(Current(sys, tier), tier) && Writes(sys, tier, a) ==>
      || p.event.Open? || p.event.Reset?
      || ((p.event.Close? || p.event.Launched?) && |p.current.players| >= tier.minPlayers)
  }

  predicate AlwaysHolds(tier: Tier, run: seq<Action>) {
    forall k :: 0 <= k < |run| ==> HoldsStep(Run(Initial(), tier, run[..k]), tier, run[k])
  }

  predicate AlwaysSpares(tier: Tier, run: seq<Action>) {
    forall k :: 0 <= k < |run| ==> Spares(Run(Initial(), tier, run[..k]), tier, run[k])
  }

  // ---- What every run keeps ------------------------------------------------

  // What a launching replica holds is in launch; launches are recorded in order.
  predicate Recorded(sys: System, tier: Tier) {
    && (forall r :: r in sys.replicas ==> HoldsLaunch(sys.replicas[r], tier))
    && |sys.launchedAt| == |sys.launches|
    && (forall i :: 0 <= i < |sys.launchedAt| ==> sys.launchedAt[i] <= |sys.log|)
    && forall i, j :: 0 <= i < j < |sys.launchedAt| ==> sys.launchedAt[i] < sys.launchedAt[j]
  }

  predicate HoldsLaunch(p: Replica, tier: Tier) {
    p.Idle? || p.Loading? || p.Loaded? || InLaunch(p.launched, tier)
  }

  lemma StepRecorded(sys: System, tier: Tier, a: Action)
    requires Safe(sys, tier) && Recorded(sys, tier)
    ensures Recorded(Step(sys, tier, a), tier)
  {
    var p := At(sys, a.r);
    assert ReplicaSound(p, tier) && HoldsLaunch(p, tier);
    if a.Save? && Writes(sys, tier, a) && Reduce(p.current, p.event, tier, a.now).shouldLaunch {
      LaunchBecomes(p.current, p.event, tier, a.now);
    }
    hide Reduce, InLaunch, WellFormed;
  }

  predicate Held(sys: System, tier: Tier) {
    Pending(sys) ==> InLaunch(Current(sys, tier), tier)
  }

  // ---- One save ------------------------------------------------------------

  // Off a lobby that is not in launch, no event but a close or a mark makes one
  // that is, unless it launches.
  lemma EntersByLaunch(c: State, e: Event, tier: Tier, now: int)
    requires WellFormed(c, tier) && !c.scheduled
    requires Reduce(c, e, tier, now).rejected.None? && Reduce(c, e, tier, now).changed
    requires e.Join? || e.Leave? || e.Ready? || e.Tick?
    ensures Reduce(c, e, tier, now).shouldLaunch || !InLaunch(Reduce(c, e, tier, now).state, tier)
  {
    if !e.Tick? {
      var s := Admit(c, e, tier, now).value.value;
      assert s.status != Launching && !s.scheduled && (s.countdownEndsAt.Some? <==> s.status == Countdown);
      hide Admit;
    }
  }

  // A close or a mark leaves a big enough roster in launch; neither launches.
  lemma MarksLaunch(c: State, e: Event, tier: Tier, now: int)
    requires (e.Close? || e.Launched?) && !c.scheduled && Reduce(c, e, tier, now).changed
    ensures !Reduce(c, e, tier, now).shouldLaunch
    ensures InLaunch(Reduce(c, e, tier, now).state, tier) <==> |c.players| >= tier.minPlayers
  {
  }

  lemma OpensQuietly(c: State, e: Event, tier: Tier, now: int)
    requires e.Open? || e.Reset?
    ensures !Reduce(c, e, tier, now).shouldLaunch
  {
  }

  // An entry of the log ends a pending launch exactly if it opens or clears.
  lemma EntryEnds(log: seq<Timed>, e: Timed, at: nat)
    requires at <= |log|
    ensures Reopened(log + [e], at, |log| + 1) <==> Reopened(log, at, |log|) || e.event.Open? || e.event.Reset?
  {
    var longer := log + [e];
    assert longer[|log|] == e && forall k :: 0 <= k < |log| ==> longer[k] == log[k];
    if Reopened(log, at, |log|) {
      var k :| at <= k < |log| && (log[k].event.Open? || log[k].event.Reset?);
      assert longer[k] == log[k];
    }
    if Reopened(longer, at, |log| + 1) {
      var k :| at <= k < |longer| && (longer[k].event.Open? || longer[k].event.Reset?);
      assert k < |log| ==> log[k] == longer[k];
    }
  }

  // An entry and no launch.
  lemma PendingAfter(sys: System, after: System, e: Timed)
    requires after.log == sys.log + [e] && after.launchedAt == sys.launchedAt
    requires forall i :: 0 <= i < |sys.launchedAt| ==> sys.launchedAt[i] <= |sys.log|
    ensures Pending(after) <==> Pending(sys) && !e.event.Open? && !e.event.Reset?
  {
    if |sys.launchedAt| > 0 { EntryEnds(sys.log, e, sys.launchedAt[|sys.launchedAt| - 1]); }
    hide Reopened;
  }

  lemma StepHoldsIff(sys: System, tier: Tier, a: Action)
    requires Safe(sys, tier) && Kin(sys, tier) && Recorded(sys, tier) && Held(sys, tier)
    ensures HoldsStep(sys, tier, a) <==> Spares(sys, tier, a)
    ensures HoldsStep(sys, tier, a) ==> Held(Step(sys, tier, a), tier)
  {
    var p := At(sys, a.r);
    assert ReplicaSound(p, tier) && ReplicaKin(p, Current(sys, tier)) && HoldsLaunch(p, tier);
    hide Reduce, InLaunch, WellFormed, Reopened, Pending, Recorded, Kin, Safe;
    match a
    case Save(r, now) =>
      if Writes(sys, tier, a) { SaveHoldsIff(sys, tier, r, p, now); } else { Unmoved(sys, Step(sys, tier, a), tier); }
    case SaveMarked(r) => if p.Marking? { MarkHolds(sys, tier, r, p.launched, p.game); }
    case SaveReset(r) => ResetHolds(sys, tier, a);
    case _ => Unmoved(sys, Step(sys, tier, a), tier);
  }

  lemma Unmoved(sys: System, after: System, tier: Tier)
    requires after.log == sys.log && after.launchedAt == sys.launchedAt
    ensures Pending(after) == Pending(sys)
  {
  }

  lemma SaveHoldsIff(sys: System, tier: Tier, r: nat, p: Replica, now: int)
    requires Recorded(sys, tier) && Held(sys, tier) && p == At(sys, r) && Writes(sys, tier, Save(r, now))
    requires ReplicaSound(p, tier) && ReplicaKin(p, Current(sys, tier))
    ensures HoldsStep(sys, tier, Save(r, now)) <==> Spares(sys, tier, Save(r, now))
    ensures HoldsStep(sys, tier, Save(r, now)) ==> Held(Step(sys, tier, Save(r, now)), tier)
  {
    var c, e, stored := p.current, p.event, Current(sys, tier);
    var t, after := Reduce(c, e, tier, now), Step(sys, tier, Save(r, now));
    assert Siblings(c, stored);
    assert InLaunch(stored, tier) ==> !c.scheduled;
    assert after.log == sys.log + [Timed(e, now)] && Current(after, tier) == t.state by { hide Reduce; }
    if t.shouldLaunch {
      LaunchBecomes(c, e, tier, now);
    } else {
      PendingAfter(sys, after, Timed(e, now)) by { hide Reduce; }
    }
    if e.Close? || e.Launched? { MarksIfPending(sys, tier, c, e, now); }
    else if e.Open? || e.Reset? { OpensQuietly(c, e, tier, now); }
    else if Pending(sys) { EntersByLaunch(c, e, tier, now); }
    hide Reduce, InLaunch, Reopened, Pending;
  }

  lemma MarksIfPending(sys: System, tier: Tier, c: State, e: Event, now: int)
    requires e.Close? || e.Launched?
    requires Reduce(c, e, tier, now).changed
    ensures !Reduce(c, e, tier, now).shouldLaunch
    ensures !c.scheduled ==> (InLaunch(Reduce(c, e, tier, now).state, tier) <==> |c.players| >= tier.minPlayers)
  {
    if !c.scheduled { MarksLaunch(c, e, tier, now); }
  }

  lemma MarkHolds(sys: System, tier: Tier, r: nat, launched: State, game: string)
    requires Recorded(sys, tier) && Held(sys, tier) && InLaunch(launched, tier)
    ensures var after := MarkStep(sys, tier, r, launched, game);
            after.launches == sys.launches && Held(after, tier)
  {
    LaunchSaves(launched, tier, game);
    var after := MarkStep(sys, tier, r, launched, game);
    hide Reduce, Reopened;
    if Current(sys, tier).version == launched.version {
      PendingAfter(sys, after, Timed(Launched(game), 0));
    } else {
      Unmoved(sys, after, tier);
    }
    hide Pending;
  }

  lemma ResetHolds(sys: System, tier: Tier, a: Action)
    requires Recorded(sys, tier) && Held(sys, tier) && a.SaveReset?
    ensures var after := Step(sys, tier, a); after.launches == sys.launches && Held(after, tier)
  {
    var after := Step(sys, tier, a);
    hide Reduce, Reopened, InLaunch;
    if after.log == sys.log {
      Unmoved(sys, after, tier);
    } else {
      PendingAfter(sys, after, Timed(Reset, 0));
    }
    hide Pending;
  }

  // ---- Runs ----------------------------------------------------------------

  lemma {:induction false} RunRecorded(tier: Tier, run: seq<Action>)
    ensures Recorded(Run(Initial(), tier, run), tier)
  {
    if run != [] {
      var front := run[..|run| - 1];
      RunRecorded(tier, front);
      RunKin(tier, front);
      hide Safe, Kin, Recorded, Step;
      StepRecorded(Run(Initial(), tier, front), tier, run[|run| - 1]);
    }
  }

  lemma HoldsSnoc(tier: Tier, run: seq<Action>, a: Action)
    ensures AlwaysHolds(tier, run + [a]) <==> AlwaysHolds(tier, run) && HoldsStep(Run(Initial(), tier, run), tier, a)
    ensures AlwaysSpares(tier, run + [a]) <==> AlwaysSpares(tier, run) && Spares(Run(Initial(), tier, run), tier, a)
  {
    hide HoldsStep, Spares, Run;
    var longer := run + [a];
    assert longer[..|run|] == run && longer[|run|] == a;
    assert forall k :: 0 <= k < |run| ==> longer[..k] == run[..k] && longer[k] == run[k];
    if AlwaysHolds(tier, longer) {
      forall k | 0 <= k < |run| ensures HoldsStep(Run(Initial(), tier, run[..k]), tier, run[k]) {
        assert HoldsStep(Run(Initial(), tier, longer[..k]), tier, longer[k]);
      }
      assert HoldsStep(Run(Initial(), tier, longer[..|run|]), tier, longer[|run|]);
    }
    if AlwaysSpares(tier, longer) {
      forall k | 0 <= k < |run| ensures Spares(Run(Initial(), tier, run[..k]), tier, run[k]) {
        assert Spares(Run(Initial(), tier, longer[..k]), tier, longer[k]);
      }
      assert Spares(Run(Initial(), tier, longer[..|run|]), tier, longer[|run|]);
    }
  }

  // In any run, ticks included: from each launch until the lobby is opened or
  // cleared it stays in launch and launches no second time, exactly when every
  // save over it is an opening, a clearing, or a close or a mark loaded with
  // enough players. No other save over a launched lobby is harmless.
  lemma {:induction false} LaunchesHoldIff(tier: Tier, run: seq<Action>)
    ensures AlwaysHolds(tier, run) <==> AlwaysSpares(tier, run)
    ensures AlwaysHolds(tier, run) ==> Held(Run(Initial(), tier, run), tier)
  {
    if run != [] {
      var front, last := run[..|run| - 1], run[|run| - 1];
      assert run == front + [last];
      LaunchesHoldIff(tier, front);
      HoldsSnoc(tier, front, last);
      RunKin(tier, front);
      RunRecorded(tier, front);
      assert Run(Initial(), tier, run) == Step(Run(Initial(), tier, front), tier, last);
      hide *;
      if AlwaysHolds(tier, front) { StepHoldsIff(Run(Initial(), tier, front), tier, last); }
    }
  }

  // So then no roster is taken into two games.
  predicate LaunchesParted(sys: System) {
    forall i, j :: 0 <= i < j < |sys.launchedAt| ==> Reopened(sys.log, sys.launchedAt[i], sys.launchedAt[j])
  }

  lemma {:induction false} SparedLaunchesPart(tier: Tier, run: seq<Action>)
    requires AlwaysSpares(tier, run)
    ensures LaunchesParted(Run(Initial(), tier, run))
  {
    if run != [] {
      var front, last := run[..|run| - 1], run[|run| - 1];
      assert run == front + [last];
      HoldsSnoc(tier, front, last);
      LaunchesHoldIff(tier, run);
      SparedLaunchesPart(tier, front);
      RunRecorded(tier, front);
      assert Run(Initial(), tier, run) == Step(Run(Initial(), tier, front), tier, last);
      hide *;
      PartedStep(Run(Initial(), tier, front), tier, last);
    }
  }

  lemma PartedStep(sys: System, tier: Tier, a: Action)
    requires LaunchesParted(sys) && Recorded(sys, tier) && HoldsStep(sys, tier, a)
    ensures LaunchesParted(Step(sys, tier, a))
  {
    hide Reduce, InLaunch, Reopened;
    var after := Step(sys, tier, a);
    assert sys.log <= after.log;
    forall i, j | 0 <= i < j < |after.launchedAt| ensures Reopened(after.log, after.launchedAt[i], after.launchedAt[j]) {
      if j < |sys.launchedAt| {
        ReopenedStays(sys.log, after.log, sys.launchedAt[i], sys.launchedAt[j], sys.launchedAt[i], sys.launchedAt[j]);
      } else {
        assert !Pending(sys);
        var last := sys.launchedAt[|sys.launchedAt| - 1];
        assert sys.launchedAt[i] <= last;
        ReopenedStays(sys.log, after.log, last, |sys.log|, sys.launchedAt[i], after.launchedAt[j]);
      }
    }
  }

  lemma ReopenedStays(log: seq<Timed>, longer: seq<Timed>, low: nat, high: nat, low': nat, high': nat)
    requires log <= longer && Reopened(log, low, high) && low' <= low && high <= high' <= |longer|
    ensures Reopened(longer, low', high')
  {
    var k :| low <= k < high <= |log| && (log[k].event.Open? || log[k].event.Reset?);
    assert longer[k] == log[k];
  }

  // Runs that are not torn are among these.
  lemma UntornSpares(tier: Tier, run: seq<Action>)
    requires Untorn(Initial(), tier, run)
    ensures AlwaysSpares(tier, run)
  {
    forall k | 0 <= k < |run| ensures Spares(Run(Initial(), tier, run[..k]), tier, run[k]) {
      var front := run[..k];
      forall j | 0 <= j < |front| ensures Fresh(Run(Initial(), tier, front[..j]), tier, front[j]) {
        assert front[..j] == run[..j] && front[j] == run[j];
      }
      RunLinear(Initial(), tier, front);
      assert Fresh(Run(Initial(), tier, front), tier, run[k]) by { hide Run, Fresh; }
      hide Run, Linear, Fresh, Spares, Untorn;
      FreshSpares(Run(Initial(), tier, front), tier, run[k]);
    }
  }

  lemma FreshSpares(sys: System, tier: Tier, a: Action)
    requires Linear(sys, tier) && Fresh(sys, tier, a)
    ensures Spares(sys, tier, a)
  {
    hide Pending, Reopened, LaunchesFresh, Safe;
    assert ReplicaFresh(At(sys, a.r), sys, tier);
    if Writes(sys, tier, a) && InLaunch(Current(sys, tier), tier) {
      assert At(sys, a.r).current == Current(sys, tier);
      OverLaunch(At(sys, a.r).current, At(sys, a.r).event, tier, a.now);
    }
  }

  // What a lobby in launch lets through.
  lemma OverLaunch(s: State, e: Event, tier: Tier, now: int)
    requires InLaunch(s, tier) && Reduce(s, e, tier, now).rejected.None? && Reduce(s, e, tier, now).changed
    ensures e.Open? || e.Reset? || (e.Launched? && |s.players| >= tier.minPlayers)
  {
  }
}
