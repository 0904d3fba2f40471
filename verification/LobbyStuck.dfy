// A launch that throws after its mark was stored: the reset it falls back on
// expects the version before the mark, and its miss is not looked at.
module LobbyStuck {
  import opened Lobby
  import opened LobbyReplicas
  import opened Options

  const STUCK := ALONE.(gameId := Some("g1"), version := 2)

  const STUCK_RUN := [Begin(0, Join(ANN)), Load(0), Save(0, 0), Begin(0, Tick), Load(0), Save(0, 10000),
                      GameCreated(0, "g1"), SaveMarked(0), LaunchFails(0), SaveReset(0)]

  // The lobby at rest in a launch that is over.
  ghost predicate DeadTier(s: State, tier: Tier) {
    && s.status == Launching && s.players != []
    && (forall now: int :: !Reduce(s, Tick, tier, now).changed)
    && (forall p: Entrant, now: int :: Reduce(s, Join(p), tier, now).rejected == Some(LobbyLaunching))
    && (forall p: Player, now: int :: p in s.players ==> Reduce(s, Leave(p.playerId), tier, now).rejected == Some(LobbyLaunching))
  }

  lemma MarkedIsDead(s: State, tier: Tier)
    requires InLaunch(s, tier) && s.players != []
    ensures DeadTier(s, tier)
  {
    forall p: Player, now: int | p in s.players ensures Reduce(s, Leave(p.playerId), tier, now).rejected == Some(LobbyLaunching) {
      var i :| 0 <= i < |s.players| && s.players[i] == p;
      assert Holds(s.players, p.playerId);
    }
  }

  lemma LaunchStored(run: seq<Action>)
    requires run == STUCK_RUN[..6]
    ensures Run(Initial(), FREE_TIER, run) ==
              System(Some(ALONE), map[0 := Creating(ALONE)], [Timed(Join(ANN), 0), Timed(Tick, 10000)], 1, [ALONE], [2])
  {
    hide Reduce;
    AnnJoins();
    TickLaunches();
    RunThree(Initial(), FREE_TIER, [], run[0], run[1], run[2], run[..3]);
    var s3 := Run(Initial(), FREE_TIER, run[..3]);
    assert s3 == System(Some(COUNTING), map[0 := Idle], [Timed(Join(ANN), 0)], 0, [], []);
    RunThree(Initial(), FREE_TIER, run[..3], run[3], run[4], run[5], run);
    hide Run;
    var s5 := Step(Step(s3, FREE_TIER, Begin(0, Tick)), FREE_TIER, Load(0));
    assert At(s5, 0) == Loaded(Tick, 0, COUNTING, 0);
  }

  // One replica and no rival: after the launch has failed and fallen back, every
  // replica is idle and the tier is dead.
  lemma ThrowAfterMarkSticks()
    ensures var sys := Run(Initial(), FREE_TIER, STUCK_RUN);
            sys.cell == Some(STUCK) && sys.replicas == map[0 := Idle] && DeadTier(STUCK, FREE_TIER)
  {
    var run := STUCK_RUN;
    LaunchStored(run[..6]);
    var s6 := Run(Initial(), FREE_TIER, run[..6]);
    RunThree(Initial(), FREE_TIER, run[..6], run[6], run[7], run[8], run[..9]);
    var s9 := Run(Initial(), FREE_TIER, run[..9]);
    assert run[..|run| - 1] == run[..9];
    assert Run(Initial(), FREE_TIER, run) == Step(s9, FREE_TIER, SaveReset(0));
    MarkedIsDead(STUCK, FREE_TIER);
    hide Run, Reduce;
    LaunchSaves(ALONE, FREE_TIER, "g1");
    var s7 := Step(s6, FREE_TIER, GameCreated(0, "g1"));
    assert At(s7, 0) == Marking(ALONE, "g1");
    var s8 := Step(s7, FREE_TIER, SaveMarked(0));
    assert s8.cell == Some(STUCK) && At(s8, 0) == Clearing(ALONE, STUCK);
    assert At(s9, 0) == Resetting(ALONE) && s9.cell == Some(STUCK);
  }
}
