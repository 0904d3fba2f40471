// What interleaved releases do to the reservations: exactly when every account
// goes on holding back its stakes and the withdrawals not yet released.
module Releases {
  import opened BankRuns
  import opened ClerkRuns
  import opened CustodyFlows
  import opened Ledger
  import opened Options
  import opened Refunds
  import opened Stakes

  function ReservedOf(b: Books, u: string): int {
    if Custody(u) in b.accounts then b.accounts[Custody(u)].reserved else 0
  }

  // A player's withdrawals whose reservation no one has released.
  function HeldOf(ws: seq<Withdrawal>, released: set<nat>, u: string): int {
    if ws == [] then 0
    else
      var id := |ws| - 1;
      HeldOf(ws[..id], released, u) + (if ws[id].user == u && id !in released then ws[id].amount else 0)
  }

  predicate MatchedUser(db: Db, released: set<nat>, u: string) {
    ReservedOf(db.books, u) == StakesOf(db.stakes, u) + HeldOf(db.withdrawals, released, u)
  }

  ghost predicate Matched(db: Db, released: set<nat>) {
    && PositiveStakes(db.stakes) && WithdrawalsValid(db.withdrawals)
    && (forall id :: id in released ==> id < |db.withdrawals|)
    && forall u: string :: MatchedUser(db, released, u)
  }

  // ---- Sums ----------------------------------------------------------------

  predicate SameOwners(ws: seq<Withdrawal>, ws': seq<Withdrawal>) {
    && |ws'| == |ws|
    && forall i :: 0 <= i < |ws| ==> ws'[i].user == ws[i].user && ws'[i].amount == ws[i].amount && ws'[i].fee == ws[i].fee
  }

  lemma {:induction false} HeldSame(ws: seq<Withdrawal>, ws': seq<Withdrawal>, released: set<nat>, u: string)
    requires SameOwners(ws, ws')
    ensures HeldOf(ws', released, u) == HeldOf(ws, released, u)
  {
    if ws != [] { HeldSame(ws[..|ws| - 1], ws'[..|ws| - 1], released, u); }
  }

  lemma {:induction false} HeldLess(ws: seq<Withdrawal>, released: set<nat>, id: nat, u: string)
    ensures HeldOf(ws, released + {id}, u) ==
              HeldOf(ws, released, u) - (if id < |ws| && ws[id].user == u && id !in released then ws[id].amount else 0)
  {
    if ws != [] {
      HeldLess(ws[..|ws| - 1], released, id, u);
    }
  }

  lemma {:induction false} HeldNotNegative(ws: seq<Withdrawal>, released: set<nat>, u: string)
    requires WithdrawalsValid(ws)
    ensures HeldOf(ws, released, u) >= 0
  {
    if ws != [] { HeldNotNegative(ws[..|ws| - 1], released, u); }
  }

  // ---- Steps that leave every reservation alone ----------------------------

  ghost predicate SameReserved(b: Books, b': Books) {
    forall u: string :: ReservedOf(b', u) == ReservedOf(b, u)
  }

  ghost predicate Quiet(db: Db, db': Db) {
    SameReserved(db.books, db'.books) && db'.stakes == db.stakes && SameOwners(db.withdrawals, db'.withdrawals)
  }

  lemma QuietKeeps(db: Db, db': Db, released: set<nat>)
    requires Matched(db, released) && Quiet(db, db')
    ensures Matched(db', released)
  {
    forall u: string ensures MatchedUser(db', released, u) {
      assert MatchedUser(db, released, u) && ReservedOf(db'.books, u) == ReservedOf(db.books, u);
      HeldSame(db.withdrawals, db'.withdrawals, released, u);
    }
  }

  lemma {:induction false} LegsReserveNothing(b: Books, e: Entry, n: nat)
    requires n <= |e.legs| && PostLegs(b, e, n).Ok?
    ensures SameReserved(b, PostLegs(b, e, n).value)
  {
    hide HasKey;
    if n > 0 { LegsReserveNothing(b, e, n - 1); }
  }

  lemma EntryReservesNothing(b: Books, e: Entry)
    ensures PostEntry(b, e).Ok? ==> SameReserved(b, PostEntry(b, e).value)
  {
    hide PostLegs, SameReserved;
    if PostEntry(b, e).Ok? { LegsReserveNothing(b, e, |e.legs|); }
  }

  lemma CustodyReservesNothing(b: Books, user: string)
    ensures SameReserved(b, WithCustody(b, user))
  {
  }

  lemma {:induction false} RefundsReserveNothing(b: Books, owed: seq<RefundLeg>, game: string, group: nat, n: nat)
    requires n <= |owed| && Escrow(game) in b.accounts && RefundFirst(b, owed, game, group, n).Ok?
    ensures SameReserved(b, RefundFirst(b, owed, game, group, n).value)
  {
    hide HasKey;
    if n > 0 { RefundsReserveNothing(b, owed, game, group, n - 1); }
  }

  // ---- Consuming stakes ----------------------------------------------------

  lemma {:induction false} ConsumingReserves(b: Books, rows: seq<Reservation>, game: string, group: nat, n: nat)
    requires n <= |rows| && Escrow(game) in b.accounts && ConsumeFirst(b, rows, game, group, n).Ok? && PositiveStakes(rows)
    requires forall u: string :: StakesOf(rows, u) <= ReservedOf(b, u)
    ensures forall u: string :: ReservedOf(ConsumeFirst(b, rows, game, group, n).value, u) ==
                                  ReservedOf(b, u) - StakesOf(rows[..n], u)
  {
    hide HasKey;
    if n > 0 {
      ConsumingReserves(b, rows, game, group, n - 1);
      var mid, s := ConsumeFirst(b, rows, game, group, n - 1).value, rows[n - 1];
      assert rows[..n][..n - 1] == rows[..n - 1];
      StakeIsReserved(rows, n);
      assert StakesOf(rows, s.user) <= ReservedOf(b, s.user);
      assert ReservedOf(mid, s.user) >= s.lamports > 0;
    }
  }

  lemma StakeIsReserved(rows: seq<Reservation>, n: nat)
    requires 0 < n <= |rows| && PositiveStakes(rows)
    ensures StakesOf(rows[..n - 1], rows[n - 1].user) + rows[n - 1].lamports <= StakesOf(rows, rows[n - 1].user)
  {
    var u := rows[n - 1].user;
    StakesSplit(rows, n, u);
    assert rows[..n][..n - 1] == rows[..n - 1];
    StakesNonNegative(rows[n..], u);
  }

  lemma {:induction false} TierPositive(stakes: seq<Reservation>, tier: string)
    requires PositiveStakes(stakes)
    ensures PositiveStakes(InTier(stakes, tier)) && PositiveStakes(NotInTier(stakes, tier))
  {
    if stakes != [] { TierPositive(stakes[..|stakes| - 1], tier); }
  }

  lemma ConsumeMatches(db: Db, released: set<nat>, tier: string, game: string, expected: Option<int>)
    requires Matched(db, released) && Consume(db, tier, game, expected).Ok?
    ensures Matched(Consume(db, tier, game, expected).value.0, released)
  {
    var rows, db' := InTier(db.stakes, tier), Consume(db, tier, game, expected).value.0;
    TierPositive(db.stakes, tier);
    hide ConsumeFirst, PositiveStakes;
    if rows != [] {
      forall u: string ensures StakesOf(rows, u) <= ReservedOf(db.books, u) {
        assert MatchedUser(db, released, u);
        TierSums(db.stakes, tier, u);
        StakesOfPositive(NotInTier(db.stakes, tier), u);
        HeldNotNegative(db.withdrawals, released, u);
      }
      ConsumingReserves(db.books, rows, game, db.groups, |rows|);
      assert rows[..|rows|] == rows;
      forall u: string ensures MatchedUser(db', released, u) {
        assert MatchedUser(db, released, u);
        TierSums(db.stakes, tier, u);
      }
    }
  }

  lemma StakesOfPositive(stakes: seq<Reservation>, u: string)
    requires PositiveStakes(stakes)
    ensures StakesOf(stakes, u) >= 0
  {
    StakesNonNegative(stakes, u);
  }

  // ---- Whole operations that release no withdrawal -------------------------

  lemma ReserveMatches(db: Db, released: set<nat>, user: string, tier: string, lamports: int)
    requires Matched(db, released)
    ensures Matched(Reserve(db, user, tier, lamports).0, released)
  {
    var db' := Reserve(db, user, tier, lamports).0;
    forall u: string ensures MatchedUser(db', released, u) {
      assert MatchedUser(db, released, u);
      StakesPlusOne(db.stakes, Reservation(user, tier, lamports), u);
    }
  }

  lemma ReleaseMatches(db: Db, released: set<nat>, user: string, tier: string)
    requires Matched(db, released)
    ensures Matched(Release(db, user, tier).0, released)
  {
    var db', i := Release(db, user, tier).0, FindStake(db.stakes, user, tier);
    if i < |db.stakes| {
      assert MatchedUser(db, released, user);
      StakesWithout(db.stakes, i, user);
      StakesOfPositive(db.stakes[..i] + db.stakes[i + 1..], user);
      HeldNotNegative(db.withdrawals, released, user);
      forall u: string ensures MatchedUser(db', released, u) {
        assert MatchedUser(db, released, u);
        StakesWithout(db.stakes, i, u);
      }
    }
  }

  lemma CreateMatches(db: Db, released: set<nat>, user: string, amount: int, bps: int)
    requires Matched(db, released) && CreateWithdrawal(db, user, amount, bps).Ok?
    ensures Matched(CreateWithdrawal(db, user, amount, bps).value.0, released)
  {
    var db' := CreateWithdrawal(db, user, amount, bps).value.0;
    SplitBounds(amount, bps);
    assert db'.withdrawals[..|db.withdrawals|] == db.withdrawals;
    assert |db.withdrawals| !in released;
    forall u: string ensures MatchedUser(db', released, u) { assert MatchedUser(db, released, u); }
  }

  lemma CancelQuiet(db: Db, game: string)
    requires Cancel(db, game).Ok?
    ensures Quiet(db, Cancel(db, game).value.0)
  {
    hide RefundFirst, OwedFor, PaidOut;
    if Escrow(game) in db.books.accounts {
      var owed := OwedFor(db.books.rows, game);
      RefundsReserveNothing(db.books, owed, game, db.groups, |owed|);
    }
  }

  lemma DepositQuiet(db: Db, user: string, id: nat, signature: string, chain: Chain, writes: nat)
    ensures Quiet(db, ConfirmDeposit(db, user, id, signature, chain, writes).0)
  {
    hide PostEntry, DepositSignatureTaken, ReservedOf;
    var db0 := db.(books := WithCustody(db.books, user));
    CustodyReservesNothing(db.books, user);
    if id < |db.deposits| && chain.Valid? { EntryReservesNothing(db0.books, DepositPosting(db0, id, chain.observed)); }
  }

  predicate Unreleasing(op: Op) {
    !op.ConfirmWithdrawalOp? && !op.ExpireWithdrawalOp?
  }

  lemma WholeMatches(db: Db, released: set<nat>, op: Op)
    requires Matched(db, released) && Unreleasing(op)
    ensures Matched(Do(db, op), released)
  {
    hide Matched, Consume, Cancel, Reserve, Release, PostEntry, ConfirmDeposit, CreateWithdrawal, Quiet, OpenGame, ExpireDeposit;
    match op
    case ReserveOp(user, tier, lamports) => ReserveMatches(db, released, user, tier, lamports);
    case ReleaseOp(user, tier) => ReleaseMatches(db, released, user, tier);
    case ConsumeOp(tier, game, expected) =>
      if Consume(db, tier, game, expected).Ok? { ConsumeMatches(db, released, tier, game, expected); }
    case CancelOp(game) =>
      if Cancel(db, game).Ok? { CancelQuiet(db, game); QuietKeeps(db, Do(db, op), released); }
    case CreateWithdrawalOp(user, amount, bps) =>
      if CreateWithdrawal(db, user, amount, bps).Ok? { CreateMatches(db, released, user, amount, bps); }
    case ConfirmDepositOp(user, id, signature, chain, writes) =>
      DepositQuiet(db, user, id, signature, chain, writes);
      QuietKeeps(db, Do(db, op), released);
    case _ =>
      PlainQuiet(db, op);
      QuietKeeps(db, Do(db, op), released);
  }

  lemma PlainQuiet(db: Db, op: Op)
    requires op.PostOp? || op.OpenGameOp? || op.CompleteGameOp? || op.CreateDepositOp? || op.ExpireDepositOp?
    ensures Quiet(db, Do(db, op))
  {
    hide PostEntry;
    if op.PostOp? { EntryReservesNothing(db.books, PostingOf(db, op)); }
  }

  // ---- Releases ------------------------------------------------------------

  // A release and the reservation total it writes.
  datatype Giveback = Giveback(id: nat, written: int)

  // What a whole confirmation or failure of this withdrawal would write.
  function WholeRelease(db: Db, id: nat): Giveback
    requires id < |db.withdrawals|
  {
    var w := db.withdrawals[id];
    Giveback(id, Less(ReservedOf(db.books, w.user), w.amount))
  }

  // The release a step makes, if it makes one.
  function ReleaseOf(s: System, a: Action): Option<Giveback> {
    var ws := s.db.withdrawals;
    match a
    case Proceed(clerk) =>
      if clerk in s.clerks && s.clerks[clerk].WriteNext? && s.clerks[clerk].id < |ws|
         && Custody(ws[s.clerks[clerk].id].user) in s.db.books.accounts
      then Some(Giveback(s.clerks[clerk].id, s.clerks[clerk].reserved))
      else None
    case Whole(ConfirmWithdrawalOp(user, id, signature, chain, writes)) =>
      var outcome := ConfirmWithdrawal(s.db, user, id, signature, chain, writes).1;
      if id < |ws| && (outcome == Failed || (outcome == Confirmed && ws[id].status != WithdrawalConfirmed)
                       || (outcome == Crashed && chain.Valid? && writes == 2))
      then Some(WholeRelease(s.db, id)) else None
    case Whole(ExpireWithdrawalOp(id, writes)) =>
      if id < |ws| && ExpireWithdrawal(s.db, id, writes).1 == Failed then Some(WholeRelease(s.db, id)) else None
    case _ => None
  }

  // The first release of a withdrawal takes its amount off the reservation it
  // finds; a further one takes nothing.
  predicate TakesOnce(db: Db, released: set<nat>, r: Giveback) {
    && r.id < |db.withdrawals|
    && var w := db.withdrawals[r.id];
       r.written == ReservedOf(db.books, w.user) - (if r.id in released then 0 else w.amount)
  }

  predicate Exact(s: System, released: set<nat>, a: Action) {
    var r := ReleaseOf(s, a);
    r.None? || TakesOnce(s.db, released, r.value)
  }

  function NowReleased(s: System, released: set<nat>, a: Action): set<nat> {
    var r := ReleaseOf(s, a);
    if r.Some? then released + {r.value.id} else released
  }

  // The step writes this release and is quiet otherwise.
  ghost predicate Writes(db: Db, db': Db, r: Giveback) {
    && r.id < |db.withdrawals| && db'.stakes == db.stakes && SameOwners(db.withdrawals, db'.withdrawals)
    && forall u: string :: ReservedOf(db'.books, u) ==
                             if u == db.withdrawals[r.id].user then r.written else ReservedOf(db.books, u)
  }

  lemma ReleaseExactly(db: Db, db': Db, released: set<nat>, r: Giveback)
    requires Matched(db, released) && Writes(db, db', r)
    ensures Matched(db', released + {r.id}) <==> TakesOnce(db, released, r)
  {
    var w, more := db.withdrawals[r.id], released + {r.id};
    forall u: string
      ensures MatchedUser(db', more, u) <==>
                (u == w.user ==> r.written == ReservedOf(db.books, u) - (if r.id in released then 0 else w.amount)) {
      assert MatchedUser(db, released, u);
      HeldSame(db.withdrawals, db'.withdrawals, more, u);
      HeldLess(db.withdrawals, released, r.id, u);
    }
    hide MatchedUser;
    if Matched(db', more) { assert MatchedUser(db', more, w.user); }
  }

  lemma ConfirmWrites(s: System, user: string, id: nat, signature: string, chain: Chain, writes: nat)
    requires WithdrawalsValid(s.db.withdrawals)
    ensures var db' := ConfirmWithdrawal(s.db, user, id, signature, chain, writes).0;
            var r := ReleaseOf(s, Whole(ConfirmWithdrawalOp(user, id, signature, chain, writes)));
            if r.Some? then Writes(s.db, db', r.value) else Quiet(s.db, db')
  {
    hide PostEntry, SignatureTaken;
    var db0 := s.db.(books := WithCustody(s.db.books, user));
    CustodyReservesNothing(s.db.books, user);
    if id < |s.db.withdrawals| { EntryReservesNothing(db0.books, WithdrawalPosting(db0, id)); }
  }

  lemma ExpireWrites(s: System, id: nat, writes: nat)
    requires WithdrawalsValid(s.db.withdrawals)
    ensures var db' := ExpireWithdrawal(s.db, id, writes).0;
            var r := ReleaseOf(s, Whole(ExpireWithdrawalOp(id, writes)));
            if r.Some? then Writes(s.db, db', r.value) else Quiet(s.db, db')
  {
  }

  lemma ClerkWrites(s: System, clerk: nat)
    requires clerk in s.clerks
    ensures var db' := Write(s.db, s.clerks[clerk]).0;
            var r := ReleaseOf(s, Proceed(clerk));
            if r.Some? then Writes(s.db, db', r.value) else Quiet(s.db, db')
  {
    hide PostEntry, SignatureTaken, DepositSignatureTaken;
    match s.clerks[clerk]
    case PostNext(id, _) =>
      if id < |s.db.withdrawals| {
        var db0 := s.db.(books := WithCustody(s.db.books, s.db.withdrawals[id].user));
        CustodyReservesNothing(s.db.books, s.db.withdrawals[id].user);
        EntryReservesNothing(db0.books, WithdrawalPosting(db0, id));
      }
    case CreditNext(id, _, credited) =>
      if id < |s.db.deposits| {
        var db0 := s.db.(books := WithCustody(s.db.books, s.db.deposits[id].user));
        CustodyReservesNothing(s.db.books, s.db.deposits[id].user);
        EntryReservesNothing(db0.books, DepositPosting(db0, id, credited));
      }
    case _ =>
  }

  lemma StepMatchesIff(s: System, released: set<nat>, a: Action)
    requires Matched(s.db, released)
    ensures Matched(Act(s, a).db, NowReleased(s, released, a)) <==> Exact(s, released, a)
  {
    assert WithdrawalsValid(s.db.withdrawals);
    hide Matched, Writes, ReleaseOf, Act, TakesOnce, WithdrawalsValid;
    var r := ReleaseOf(s, a);
    if r.Some? {
      StepWrites(s, a);
      ReleaseExactly(s.db, Act(s, a).db, released, r.value);
    } else {
      StepQuiet(s, released, a);
    }
  }

  lemma StepWrites(s: System, a: Action)
    requires ReleaseOf(s, a).Some? && WithdrawalsValid(s.db.withdrawals)
    ensures Writes(s.db, Act(s, a).db, ReleaseOf(s, a).value)
  {
    hide Writes, Write, ConfirmWithdrawal, ExpireWithdrawal;
    match a
    case Proceed(clerk) => ClerkWrites(s, clerk);
    case Whole(op) =>
      match op
      case ConfirmWithdrawalOp(user, id, signature, chain, writes) => ConfirmWrites(s, user, id, signature, chain, writes);
      case ExpireWithdrawalOp(id, writes) => ExpireWrites(s, id, writes);
  }

  lemma StepQuiet(s: System, released: set<nat>, a: Action)
    requires Matched(s.db, released) && ReleaseOf(s, a).None?
    ensures Matched(Act(s, a).db, released)
  {
    assert WithdrawalsValid(s.db.withdrawals);
    hide Matched, Quiet, Write, ConfirmWithdrawal, ExpireWithdrawal, Consume, Cancel, Reserve, Release, ConfirmDeposit;
    match a
    case Whole(op) =>
      if Unreleasing(op) {
        WholeMatches(s.db, released, op);
      } else {
        if op.ConfirmWithdrawalOp? { ConfirmWrites(s, op.user, op.id, op.signature, op.chain, op.writes); }
        else { ExpireWrites(s, op.id, op.writes); }
        QuietKeeps(s.db, Do(s.db, op), released);
      }
    case Proceed(clerk) =>
      if clerk in s.clerks {
        ClerkWrites(s, clerk);
        QuietKeeps(s.db, Write(s.db, s.clerks[clerk]).0, released);
      }
    case _ =>
  }

  // ---- Runs ----------------------------------------------------------------

  // The withdrawals released in the course of a run.
  function ReleasedIn(actions: seq<Action>): set<nat> {
    if actions == [] then {}
    else
      var front := actions[..|actions| - 1];
      NowReleased(RunAll(Idle(), front), ReleasedIn(front), actions[|actions| - 1])
  }

  ghost predicate AlwaysMatched(actions: seq<Action>) {
    forall k :: 0 <= k <= |actions| ==> Matched(RunAll(Idle(), actions[..k]).db, ReleasedIn(actions[..k]))
  }

  predicate AlwaysExact(actions: seq<Action>) {
    forall k :: 0 <= k < |actions| ==> Exact(RunAll(Idle(), actions[..k]), ReleasedIn(actions[..k]), actions[k])
  }

  lemma MatchedSnoc(actions: seq<Action>, a: Action)
    ensures var longer := actions + [a];
            AlwaysMatched(longer) <==> AlwaysMatched(actions) && Matched(RunAll(Idle(), longer).db, ReleasedIn(longer))
    ensures AlwaysExact(actions + [a]) <==>
              AlwaysExact(actions) && Exact(RunAll(Idle(), actions), ReleasedIn(actions), a)
  {
    hide Matched, Exact, RunAll, ReleasedIn;
    var longer := actions + [a];
    assert longer[..|longer|] == longer && longer[..|actions|] == actions && longer[|actions|] == a;
    assert forall k :: 0 <= k <= |actions| ==> longer[..k] == actions[..k];
    assert forall k :: 0 <= k < |actions| ==> longer[k] == actions[k];
    if AlwaysMatched(longer) {
      forall k | 0 <= k <= |actions| ensures Matched(RunAll(Idle(), actions[..k]).db, ReleasedIn(actions[..k])) {
        assert Matched(RunAll(Idle(), longer[..k]).db, ReleasedIn(longer[..k]));
      }
      assert Matched(RunAll(Idle(), longer[..|longer|]).db, ReleasedIn(longer[..|longer|]));
    }
    if AlwaysExact(longer) {
      forall k | 0 <= k < |actions| ensures Exact(RunAll(Idle(), actions[..k]), ReleasedIn(actions[..k]), actions[k]) {
        assert Exact(RunAll(Idle(), longer[..k]), ReleasedIn(longer[..k]), longer[k]);
      }
      assert Exact(RunAll(Idle(), longer[..|actions|]), ReleasedIn(longer[..|actions|]), longer[|actions|]);
    }
  }

  // However confirmations, failures and all other operations are interleaved, and
  // wherever they stop: every account goes on reserving exactly its player's
  // stakes and unreleased withdrawals, exactly when each withdrawal's first
  // release takes its amount off the reservation it finds and no other release
  // takes anything.
  lemma {:induction false} ReleasesMatchIff(actions: seq<Action>)
    ensures AlwaysMatched(actions) <==> AlwaysExact(actions)
  {
    hide Matched, Exact, Act, NowReleased;
    if actions == [] {
      assert actions[..0] == [];
      assert Matched(Seeded(), {}) by { NothingReserved(); }
    } else {
      var front, last := actions[..|actions| - 1], actions[|actions| - 1];
      assert actions == front + [last];
      ReleasesMatchIff(front);
      MatchedSnoc(front, last);
      if AlwaysMatched(front) {
        assert front[..|front|] == front;
        assert Matched(RunAll(Idle(), front).db, ReleasedIn(front));
        StepMatchesIff(RunAll(Idle(), front), ReleasedIn(front), last);
      }
    }
  }

  lemma NothingReserved()
    ensures Matched(Seeded(), {})
  {
  }

  // Once no release is under way, that is what the accounts have committed.
  lemma {:induction false} HeldIsOpen(ws: seq<Withdrawal>, released: set<nat>, u: string)
    requires forall id :: 0 <= id < |ws| ==> (id in released <==> !Holding(ws[id].status))
    ensures HeldOf(ws, released, u) == OpenOf(ws, u)
  {
    if ws != [] { HeldIsOpen(ws[..|ws| - 1], released, u); }
  }

  lemma ExactReleasesCommit(actions: seq<Action>, u: string)
    requires AlwaysExact(actions)
    requires var db := RunAll(Idle(), actions).db;
             forall id :: 0 <= id < |db.withdrawals| ==> (id in ReleasedIn(actions) <==> !Holding(db.withdrawals[id].status))
    ensures var db := RunAll(Idle(), actions).db; ReservedOf(db.books, u) == Commitments(db, u)
  {
    ReleasesMatchIff(actions);
    var db := RunAll(Idle(), actions).db;
    assert actions[..|actions|] == actions && Matched(db, ReleasedIn(actions));
    hide RunAll, ReleasedIn;
    assert MatchedUser(db, ReleasedIn(actions), u);
    HeldIsOpen(db.withdrawals, ReleasedIn(actions), u);
  }
}
