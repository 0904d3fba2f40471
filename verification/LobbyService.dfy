// The in-memory store and the service that applies an event under optimistic
// concurrency. What other replicas write meanwhile is a parameter.
module LobbyService {
  import opened Options
  import opened Lobby
  import LobbyReplicas
  import LobbyStuck

  type Lobbies = map<string, State>

  // Another replica's guarded write.
  datatype Write = Write(state: State, expected: nat)

  datatype Outcome =
    | Refused(state: State, reason: Rejection)
    | NoChange(state: State)
    | Saved(state: State, attempt: nat, over: State, launched: bool)
    | Lost(state: State, attempt: nat, written: bool, launched: bool) // the save threw, having written or not
    | GaveUp

  function Read(m: Lobbies, tierId: string): State {
    if tierId in m then m[tierId] else EmptyLobby(tierId)
  }

  function Put(m: Lobbies, w: Write): Lobbies {
    if Read(m, w.state.tierId).version == w.expected then m[w.state.tierId := w.state] else m
  }

  function PutAll(m: Lobbies, ws: seq<Write>): Lobbies {
    if ws == [] then m else Put(PutAll(m, ws[..|ws| - 1]), ws[|ws| - 1])
  }

  // The retry loop from attempt `k` on: `rivals[k]` lands between its load and
  // its save, and the reply to the save of attempt `lost`, if it gets there, is
  // lost: the loop throws, whatever the store did.
  function Attempts(m: Lobbies, tier: Tier, e: Event, clock: seq<int>, rivals: seq<seq<Write>>, lost: nat, k: nat)
    : (Lobbies, Outcome)
    requires |clock| == |rivals| == LobbyReplicas.MAX_CAS_ATTEMPTS && k <= |clock|
    decreases |clock| - k
  {
    if k == |clock| then (m, GaveUp)
    else
      var current := Read(m, tier.id);
      var t := Reduce(current, e, tier, clock[k]);
      if t.rejected.Some? then (m, Refused(current, t.rejected.value))
      else if !t.changed then (m, NoChange(current))
      else
        var m' := PutAll(m, rivals[k]);
        if k == lost then
          var written := Read(m', t.state.tierId).version == current.version;
          (Put(m', Write(t.state, current.version)), Lost(t.state, k, written, t.shouldLaunch))
        else if Read(m', t.state.tierId).version != current.version then Attempts(m', tier, e, clock, rivals, lost, k + 1)
        else (m'[t.state.tierId := t.state], Saved(t.state, k, Read(m', t.state.tierId), t.shouldLaunch))
  }

  // How a launch goes: where it throws, if it does. A store call may take effect
  // and still throw when its reply is lost.
  datatype Course =
    | NoGame                        // before or at the creation of the game
    | BeforeMark(game: string)      // at the first save, which takes no effect
    | BeforeClear(game: string)     // after the first save, up to a second one without effect
    | AfterClear(game: string)      // after the second save took effect
    | Completes(game: string)

  // What rivals write before each of the launch's saves.
  datatype Rivals = Rivals(first: seq<Write>, second: seq<Write>, third: seq<Write>)

  function MarkWrite(s: State, tier: Tier, game: string): Write {
    Write(Reduce(s, Launched(game), tier, 0).state, s.version)
  }

  function ResetWrite(s: State, tier: Tier): Write {
    Write(Reduce(s, Reset, tier, 0).state, s.version)
  }

  // The two saves of a launch, and after a throw the reset that expects the
  // version from before them. No result is looked at.
  function Finish(m: Lobbies, tier: Tier, s: State, course: Course, rivals: Rivals): (Lobbies, State) {
    var m1 := PutAll(m, rivals.first);
    match course
    case NoGame => (Put(m1, ResetWrite(s, tier)), ResetWrite(s, tier).state)
    case BeforeMark(_) => (Put(m1, ResetWrite(s, tier)), ResetWrite(s, tier).state)
    case _ =>
      var mark := MarkWrite(s, tier, course.game);
      var m2 := PutAll(Put(m1, mark), rivals.second);
      if course.BeforeClear? then (Put(m2, ResetWrite(s, tier)), ResetWrite(s, tier).state)
      else
        var m3 := Put(m2, ResetWrite(mark.state, tier));
        if course.Completes? then (m3, mark.state)
        else (Put(PutAll(m3, rivals.third), ResetWrite(s, tier)), ResetWrite(s, tier).state)
  }

  class LobbyStore {
    var lobbies: Lobbies

    constructor ()
      ensures lobbies == map[]
    {
      lobbies := map[];
    }

    method Load(tierId: string) returns (s: State)
      ensures s == Read(lobbies, tierId)
    {
      if tierId in lobbies { s := lobbies[tierId]; } else { s := EmptyLobby(tierId); }
    }

    // Writes only over the expected version; an absent lobby has version zero.
    method Save(state: State, expected: nat) returns (saved: bool)
      modifies this
      ensures saved <==> old(Read(lobbies, state.tierId)).version == expected
      ensures lobbies == if saved then old(lobbies)[state.tierId := state] else old(lobbies)
      ensures lobbies == Put(old(lobbies), Write(state, expected))
    {
      var currentVersion := 0;
      if state.tierId in lobbies { currentVersion := lobbies[state.tierId].version; }
      if currentVersion != expected { return false; }
      lobbies := lobbies[state.tierId := state];
      return true;
    }

    method Interfere(writes: seq<Write>)
      modifies this
      ensures lobbies == PutAll(old(lobbies), writes)
    {
      var i := 0;
      while i < |writes|
        invariant i <= |writes|
        invariant lobbies == PutAll(old(lobbies), writes[..i])
      {
        var _ := Save(writes[i].state, writes[i].expected);
        assert writes[..i + 1][..i] == writes[..i];
        i := i + 1;
      }
      assert writes[..i] == writes;
    }
  }

  method Apply(store: LobbyStore, tier: Tier, e: Event, clock: seq<int>, rivals: seq<seq<Write>>, lost: nat,
               course: Course, launchRivals: Rivals)
    returns (result: Outcome)
    requires |clock| == |rivals| == LobbyReplicas.MAX_CAS_ATTEMPTS
    modifies store
    ensures var (m, outcome) := Attempts(old(store.lobbies), tier, e, clock, rivals, lost, 0);
            if outcome.Saved? && outcome.launched then
              var (m', s) := Finish(m, tier, outcome.state, course, launchRivals);
              store.lobbies == m' && result == Saved(s, outcome.attempt, outcome.over, true)
            else store.lobbies == m && result == outcome
  {
    var attempt := 0;
    while attempt < |clock|
      invariant attempt <= |clock|
      invariant Attempts(store.lobbies, tier, e, clock, rivals, lost, attempt) ==
                Attempts(old(store.lobbies), tier, e, clock, rivals, lost, 0)
    {
      var current := store.Load(tier.id);
      var t := Reduce(current, e, tier, clock[attempt]);
      if t.rejected.Some? { return Refused(current, t.rejected.value); }
      if !t.changed { return NoChange(current); }
      store.Interfere(rivals[attempt]);
      var before := store.Load(t.state.tierId); // what a successful write replaces
      var saved := store.Save(t.state, current.version);
      if attempt == lost { return Lost(t.state, attempt, saved, t.shouldLaunch); }
      if saved {
        var final := t.state;
        if t.shouldLaunch { final := PerformLaunch(store, tier, t.state, course, launchRivals); }
        return Saved(final, attempt, before, t.shouldLaunch);
      }
      attempt := attempt + 1;
    }
    return GaveUp;
  }

  method PerformLaunch(store: LobbyStore, tier: Tier, s: State, course: Course, rivals: Rivals) returns (final: State)
    modifies store
    ensures (store.lobbies, final) == Finish(old(store.lobbies), tier, s, course, rivals)
  {
    store.Interfere(rivals.first);
    var thrown := course.NoGame? || course.BeforeMark?;
    if !thrown {
      var marked := Reduce(s, Launched(course.game), tier, 0).state;
      var _ := store.Save(marked, s.version);
      store.Interfere(rivals.second);
      thrown := course.BeforeClear?;
      if !thrown {
        var _ := store.Save(Reduce(marked, Reset, tier, 0).state, marked.version);
        if course.Completes? { return marked; }
        store.Interfere(rivals.third);
      }
    }
    var reset := Reduce(s, Reset, tier, 0).state;
    var _ := store.Save(reset, s.version);
    return reset;
  }

  // ---- What the loop promises ----------------------------------------------

  // A write by any event other than a tick.
  predicate Raising(ws: seq<Write>) {
    forall i :: 0 <= i < |ws| ==> ws[i].state.version > ws[i].expected
  }

  // No write lowers the version: any event's, a tick's included.
  predicate Steady(ws: seq<Write>) {
    forall i :: 0 <= i < |ws| ==> ws[i].state.version >= ws[i].expected
  }

  lemma {:induction false} PutAllSteady(m: Lobbies, ws: seq<Write>, tierId: string)
    requires Steady(ws)
    ensures Read(PutAll(m, ws), tierId).version >= Read(m, tierId).version
  {
    if ws != [] {
      var front := ws[..|ws| - 1];
      assert ws[|ws| - 1].state.version >= ws[|ws| - 1].expected;
      forall i | 0 <= i < |front| ensures front[i].state.version >= front[i].expected { assert front[i] == ws[i]; }
      PutAllSteady(m, front, tierId);
    }
  }

  predicate Keyed(m: Lobbies) {
    forall id :: id in m ==> m[id].tierId == id
  }

  lemma {:induction false} PutAllKeyed(m: Lobbies, ws: seq<Write>)
    requires Keyed(m)
    ensures Keyed(PutAll(m, ws))
  {
    if ws != [] { PutAllKeyed(m, ws[..|ws| - 1]); }
  }

  lemma {:induction false} PutAllRaises(m: Lobbies, ws: seq<Write>, tierId: string)
    requires Raising(ws)
    ensures Read(PutAll(m, ws), tierId).version >= Read(m, tierId).version
    ensures Read(PutAll(m, ws), tierId).version == Read(m, tierId).version ==>
              Read(PutAll(m, ws), tierId) == Read(m, tierId)
  {
    if ws != [] {
      var front := ws[..|ws| - 1];
      assert ws[|ws| - 1].state.version > ws[|ws| - 1].expected;
      forall i | 0 <= i < |front| ensures front[i].state.version > front[i].expected { assert front[i] == ws[i]; }
      PutAllRaises(m, front, tierId);
    }
  }

  lemma ReduceKeepsTier(s: State, e: Event, tier: Tier, now: int)
    ensures Reduce(s, e, tier, now).state.tierId == s.tierId
  {
  }

  // A save replaces a lobby of the version it loaded. If what rivals wrote before
  // it raised the version, that lobby is the one it reduced; and giving up takes
  // a rival's write in every remaining attempt.
  lemma {:induction false} SavedOverFreshState(
      m: Lobbies, tier: Tier, e: Event, clock: seq<int>, rivals: seq<seq<Write>>, lost: nat, k: nat)
    requires |clock| == |rivals| == LobbyReplicas.MAX_CAS_ATTEMPTS && k <= |clock| && Keyed(m)
    ensures var (m', outcome) := Attempts(m, tier, e, clock, rivals, lost, k);
            && (outcome.Saved? ==>
                 && k <= outcome.attempt < |clock| && Read(m', tier.id) == outcome.state
                 && outcome.state.version == outcome.over.version + (if e.Tick? then 0 else 1)
                 && (Raising(rivals[outcome.attempt]) ==>
                      var t := Reduce(outcome.over, e, tier, clock[outcome.attempt]);
                      t.state == outcome.state && t.rejected.None? && outcome.launched == t.shouldLaunch))
            && (outcome.Lost? ==>
                 && outcome.attempt == lost && (outcome.written ==> Read(m', tier.id) == outcome.state)
                 && (outcome.launched ==> LobbyReplicas.InLaunch(outcome.state, tier)))
            && (outcome.GaveUp? ==> forall j :: k <= j < |rivals| ==> rivals[j] != [])
            && (outcome.Refused? || outcome.NoChange? ==> outcome.state == Read(m', tier.id))
    decreases |clock| - k
  {
    hide Reduce, Raising;
    if k < |clock| {
      var current := Read(m, tier.id);
      var t := Reduce(current, e, tier, clock[k]);
      ReduceKeepsTier(current, e, tier, clock[k]);
      ReduceVersion(current, e, tier, clock[k]);
      PutAllKeyed(m, rivals[k]);
      if Raising(rivals[k]) { PutAllRaises(m, rivals[k], tier.id); }
      var m' := PutAll(m, rivals[k]);
      if t.rejected.None? && t.changed && Read(m', tier.id).version != current.version {
        SavedOverFreshState(m', tier, e, clock, rivals, lost, k + 1);
      }
      ShouldLaunchInLaunch(current, e, tier, clock[k]);
    }
  }

  lemma ShouldLaunchInLaunch(s: State, e: Event, tier: Tier, now: int)
    ensures Reduce(s, e, tier, now).shouldLaunch ==> LobbyReplicas.InLaunch(Reduce(s, e, tier, now).state, tier)
  {
  }

  lemma ReduceVersion(s: State, e: Event, tier: Tier, now: int)
    ensures var t := Reduce(s, e, tier, now);
            t.rejected.None? && t.changed ==> t.state.version == s.version + (if e.Tick? then 0 else 1)
  {
  }

  // ---- What a launch leaves behind -----------------------------------------

  // Whatever the course and the rivals, the launched version does not stay stored.
  lemma LaunchMovesOn(m: Lobbies, tier: Tier, s: State, course: Course, rivals: Rivals)
    requires Read(m, s.tierId) == s && Steady(rivals.first) && Steady(rivals.second) && Steady(rivals.third)
    ensures Read(Finish(m, tier, s, course, rivals).0, s.tierId).version > s.version
  {
    hide Reduce, Steady;
    PutAllSteady(m, rivals.first, s.tierId);
    var game := if course.NoGame? then "" else course.game;
    LobbyReplicas.LaunchSaves(s, tier, game);
    var m1 := PutAll(m, rivals.first);
    if !course.NoGame? && !course.BeforeMark? {
      var mark := MarkWrite(s, tier, game);
      PutAllSteady(Put(m1, mark), rivals.second, s.tierId);
      LobbyReplicas.LaunchSaves(mark.state, tier, "");
      PutAllSteady(Put(PutAll(Put(m1, mark), rivals.second), ResetWrite(mark.state, tier)), rivals.third, s.tierId);
    }
  }

  // Undisturbed, a launch leaves its tier empty and open exactly when it does not
  // throw between its two saves; when it does, the tier stays in the launch.
  lemma LaunchClearsIff(m: Lobbies, tier: Tier, s: State, course: Course)
    requires Read(m, s.tierId) == s
    ensures var left := Read(Finish(m, tier, s, course, Rivals([], [], [])).0, s.tierId);
            && (left == EmptyLobby(s.tierId).(version := left.version) <==> !course.BeforeClear?)
            && (course.BeforeClear? ==>
                 left == s.(status := Launching, gameId := Some(course.game), countdownEndsAt := None, version := s.version + 1))
  {
    hide Reduce;
    var game := if course.NoGame? then "" else course.game;
    LobbyReplicas.LaunchSaves(s, tier, game);
    LobbyReplicas.LaunchSaves(MarkWrite(s, tier, game).state, tier, "");
  }

  // What it then stays in serves nobody.
  lemma ThrowBetweenSavesKillsTier(m: Lobbies, tier: Tier, s: State, game: string)
    requires Read(m, s.tierId) == s && LobbyReplicas.InLaunch(s, tier) && s.players != []
    ensures LobbyStuck.DeadTier(Read(Finish(m, tier, s, BeforeClear(game), Rivals([], [], [])).0, s.tierId), tier)
  {
    LaunchClearsIff(m, tier, s, BeforeClear(game));
    hide Finish, Reduce;
    LobbyStuck.MarkedIsDead(s.(status := Launching, gameId := Some(game), countdownEndsAt := None, version := s.version + 1), tier);
  }

  // The same is left behind when the reply to a launching save is lost: the loop
  // throws before the launch, and nothing resets the lobby it stored.
  lemma LostLaunchKillsTier(m: Lobbies, tier: Tier, e: Event, clock: seq<int>, rivals: seq<seq<Write>>, lost: nat)
    requires |clock| == |rivals| == LobbyReplicas.MAX_CAS_ATTEMPTS && Keyed(m)
    ensures var (m', outcome) := Attempts(m, tier, e, clock, rivals, lost, 0);
            outcome.Lost? && outcome.written && outcome.launched && outcome.state.players != [] ==>
              LobbyStuck.DeadTier(Read(m', tier.id), tier)
  {
    SavedOverFreshState(m, tier, e, clock, rivals, lost, 0);
    var (m', outcome) := Attempts(m, tier, e, clock, rivals, lost, 0);
    hide Attempts, Reduce;
    if outcome.Lost? && outcome.launched && outcome.state.players != [] { LobbyStuck.MarkedIsDead(outcome.state, tier); }
  }
}
