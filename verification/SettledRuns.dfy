// Runs whose confirmation and expiry flows complete: exactly when reservations
// match commitments and escrows hold what is owed.
module SettledRuns {
  import opened Adjustments
  import opened Options
  import opened Ledger
  import opened Stakes
  import opened Refunds
  import opened CustodyFlows
  import opened CompletedFlows
  import opened BankRuns

  ghost predicate Healthy(db: Db) {
    Settledness(db) && PotsSound(db.books.rows) && PositiveStakes(db.stakes)
  }

  // An operation, or a manual adjustment of a balance.
  datatype Deed = Plain(op: Op) | Adjusting(user: string, delta: int, name: string)

  function Perform(db: Db, d: Deed): Db {
    match d
    case Plain(op) => Do(db, op)
    case Adjusting(user, delta, name) => Adjust(db, user, delta, name).0
  }

  function RunDeeds(db: Db, deeds: seq<Deed>): Db {
    if deeds == [] then db else Perform(RunDeeds(db, deeds[..|deeds| - 1]), deeds[|deeds| - 1])
  }

  // The entries posted beside these operations touch an escrow only to pay its
  // own game out; what they do to players is open.
  predicate OrdinaryLeg(leg: EntryLeg, kind: EntryType, game: Option<string>) {
    leg.account.Escrow? ==> kind in {Payout, RakeFee} && game == Some(leg.account.game)
  }

  // No flow stops between its writes, and no adjustment is of nothing.
  predicate Completes(d: Deed) {
    match d
    case Adjusting(_, delta, _) => delta != 0
    case Plain(PostOp(kind, legs, _, game)) => forall i :: 0 <= i < |legs| ==> OrdinaryLeg(legs[i], kind, game)
    case Plain(ConfirmWithdrawalOp(_, _, _, _, writes)) => writes >= 3
    case Plain(ExpireWithdrawalOp(_, writes)) => writes >= 2
    case Plain(ConfirmDepositOp(_, _, _, _, writes)) => writes >= 2
    case Plain(_) => true
  }

  // The player's balance would still cover what is reserved in it.
  predicate StillCovers(b: Books, u: string, change: int) {
    Custody(u) in b.accounts ==> b.accounts[Custody(u)].reserved <= b.accounts[Custody(u)].balance + change
  }

  // An entry that posts leaves every player's reservation covered; an adjustment
  // that applies does, and can be paid by the treasury.
  ghost predicate Covered(db: Db, d: Deed) {
    match d
    case Plain(PostOp(_, legs, _, _)) =>
      PostEntry(db.books, PostingOf(db, d.op)).Ok? ==> forall u: string :: StillCovers(db.books, u, LegNet(legs, Custody(u)))
    case Adjusting(user, delta, name) =>
      Adjust(db, user, delta, name).1 == Applied ==>
        StillCovers(WithCustody(db.books, user), user, delta) && delta <= BalanceOf(db.books, Treasury)
    case _ => true
  }

  function BalanceOf(b: Books, a: AccountId): int {
    if a in b.accounts then b.accounts[a].balance else 0
  }

  // ---- Entries -------------------------------------------------------------

  predicate BystanderLeg(e: Entry, i: nat)
    requires i < |e.legs|
  {
    e.legs[i].account.Escrow? ==> e.kind in {Payout, RakeFee} && e.game == Some(e.legs[i].account.game)
  }

  lemma {:induction false} EntryPots(b: Books, e: Entry, n: nat)
    requires n <= |e.legs| && PotsSound(b.rows) && PostLegs(b, e, n).Ok?
    requires forall i :: 0 <= i < |e.legs| ==> BystanderLeg(e, i) && e.legs[i].amount > 0
    ensures PotsSound(PostLegs(b, e, n).value.rows)
  {
    hide PotsSound, HasKey;
    if n > 0 {
      EntryPots(b, e, n - 1);
      var mid := PostLegs(b, e, n - 1).value;
      var row := LegRow(e, n - 1);
      assert BystanderLeg(e, n - 1);
      AppendBystander(mid.rows, row.(balanceAfter := mid.accounts[row.account].balance + Signed(row)));
    }
  }

  lemma PostPots(b: Books, e: Entry)
    requires PotsSound(b.rows) && PostEntry(b, e).Ok?
    requires forall i :: 0 <= i < |e.legs| ==> BystanderLeg(e, i)
    ensures PotsSound(PostEntry(b, e).value.rows)
  {
    hide PotsSound;
    EntryPots(b, e, |e.legs|);
  }

  lemma {:induction false} CustodyCredited(legs: seq<EntryLeg>, u: string)
    requires Positive(legs) && forall i :: 0 <= i < |legs| ==> (legs[i].account.Custody? ==> legs[i].direction == Credit)
    ensures LegNet(legs, Custody(u)) >= 0
  {
    if legs != [] { CustodyCredited(legs[..|legs| - 1], u); }
  }

  // An entry keeps every commitment exactly when it leaves every player's
  // reservation covered.
  lemma PostSettledIff(db: Db, e: Entry)
    requires Settledness(db) && PostEntry(db.books, e).Ok? && !e.base.WithdrawalKey?
    ensures Settledness(db.(books := PostEntry(db.books, e).value, groups := db.groups + 1)) <==>
              forall u: string :: StillCovers(db.books, u, LegNet(e.legs, Custody(u)))
  {
    hide Sound, RowsOf, PostLegs, LegNet;
    var db' := db.(books := PostEntry(db.books, e).value, groups := db.groups + 1);
    PostEntryKeeps(db.books, e);
    forall u: string ensures CommittedUser(db', u) <==> StillCovers(db.books, u, LegNet(e.legs, Custody(u))) {
      assert CommittedUser(db, u);
    }
    forall i: nat | Unpaid(db', i) ensures NothingPosted(db', i) {
      assert NothingPosted(db, i);
      PostedRows(db.books, e, WithdrawalKey(i));
    }
  }

  // So does one that only credits players.
  lemma CreditSettled(db: Db, e: Entry)
    requires Settledness(db) && PostEntry(db.books, e).Ok? && !e.base.WithdrawalKey?
    requires forall i :: 0 <= i < |e.legs| ==> (e.legs[i].account.Custody? ==> e.legs[i].direction == Credit)
    ensures Settledness(db.(books := PostEntry(db.books, e).value, groups := db.groups + 1))
  {
    PostSettledIff(db, e);
    assert Positive(e.legs);
    forall u: string ensures StillCovers(db.books, u, LegNet(e.legs, Custody(u))) {
      CustodyCredited(e.legs, u);
      assert CommittedUser(db, u);
    }
  }

  // ---- One operation at a time ---------------------------------------------

  // Rows under withdrawal keys and the withdrawals themselves are as before.
  lemma UnpostedStays(db: Db, db': Db)
    requires Unposted(db) && db'.withdrawals == db.withdrawals
    requires forall base :: RowsOf(db'.books.rows, base) == RowsOf(db.books.rows, base)
    ensures Unposted(db')
  {
    hide RowsOf;
    forall i: nat | Unpaid(db', i) ensures NothingPosted(db', i) { assert NothingPosted(db, i); }
  }

  lemma ConsumeHealthy(db: Db, tier: string, game: string, expected: Option<int>)
    requires Healthy(db) && EntriesOnce(db) && Consume(db, tier, game, expected).Ok?
    ensures Healthy(Consume(db, tier, game, expected).value.0)
  {
    hide Sound, Committed, PotsSound, Unposted, Consume, EntriesOnce, ConsumedFirst;
    ConsumeKeeps(db, tier, game, expected);
    ConsumePots(db, tier, game, expected);
    ConsumeAudited(db, tier, game, expected);
    UnpostedStays(db, Consume(db, tier, game, expected).value.0);
    ConsumeKeepsSystem(db, tier, game, expected);
  }

  lemma ConsumeKeepsSystem(db: Db, tier: string, game: string, expected: Option<int>)
    requires Consume(db, tier, game, expected).Ok? && SystemAccounts(db.books)
    ensures SystemAccounts(Consume(db, tier, game, expected).value.0.books)
  {
    hide ConsumeFirst;
  }

  lemma CancelHealthy(db: Db, game: string)
    requires Healthy(db) && EntriesOnce(db) && Cancel(db, game).Ok?
    ensures Healthy(Cancel(db, game).value.0)
  {
    hide Sound, Committed, PotsSound, Unposted, Cancel, EntriesOnce, RefundedFirst;
    CancelKeeps(db, game);
    CancelCommitted(db, game);
    CancelAudited(db, game);
    var (db', c) := Cancel(db, game).value;
    UnpostedStays(db, db');
    if Escrow(game) in db.books.accounts { RefundsKeepSystem(db.books, db'.books, c.refunds, game); }
  }

  lemma RefundsKeepSystem(b: Books, b': Books, owed: seq<RefundLeg>, game: string)
    requires Escrow(game) in b.accounts && RefundedFirst(b, b', owed, game, |owed|) && SystemAccounts(b)
    ensures SystemAccounts(b')
  {
    hide Sound, PotsSound, PaidOut, Staked, Settled;
    assert External in b.accounts && Treasury in b.accounts;
  }

  lemma ReserveHealthy(db: Db, op: Op)
    requires Healthy(db) && EntriesOnce(db) && (op.ReserveOp? || op.ReleaseOp?)
    ensures Healthy(Do(db, op))
  {
    hide Sound, Committed, PotsSound, Unposted, Reserve, Release, EntriesOnce;
    match op
    case ReserveOp(user, tier, lamports) =>
      ReserveKeeps(db, user, tier, lamports);
      ReserveAudited(db, user, tier, lamports);
      ReserveKeepsSystem(db, user, tier, lamports);
      UnpostedStays(db, Do(db, op));
    case ReleaseOp(user, tier) =>
      ReleaseKeeps(db, user, tier);
      ReleaseAudited(db, user, tier);
      ReserveKeepsSystem(db, user, tier, 0);
      UnpostedStays(db, Do(db, op));
  }

  lemma ReserveKeepsSystem(db: Db, user: string, tier: string, lamports: int)
    requires SystemAccounts(db.books)
    ensures var db' := Reserve(db, user, tier, lamports).0;
            SystemAccounts(db'.books) && db'.withdrawals == db.withdrawals
    ensures var db' := Release(db, user, tier).0;
            SystemAccounts(db'.books) && db'.withdrawals == db.withdrawals
  {
  }

  lemma PostHealthyIff(db: Db, op: Op)
    requires Healthy(db) && op.PostOp? && Completes(Plain(op))
    ensures Healthy(Do(db, op)) <==> Covered(db, Plain(op))
  {
    hide Settledness, PotsSound, PostEntry, StillCovers, LegNet;
    var e := PostingOf(db, op);
    if PostEntry(db.books, e).Ok? {
      forall i | 0 <= i < |e.legs| ensures BystanderLeg(e, i) {
        assert OrdinaryLeg(op.legs[i], op.kind, op.forGame);
      }
      PostSettledIff(db, e);
      PostPots(db.books, e);
    }
  }

  lemma OpenGameHealthy(db: Db, game: string)
    requires Healthy(db)
    ensures Healthy(OpenGame(db, game))
  {
    hide Sound, PotsSound, RowsOf;
    OpenGameSound(db, game);
    var db' := OpenGame(db, game);
    forall u ensures CommittedUser(db', u) { assert CommittedUser(db, u); }
    UnpostedStays(db, db');
  }

  lemma CreateWithdrawalHealthy(db: Db, user: string, amount: int, bps: int)
    requires Healthy(db) && CreateWithdrawal(db, user, amount, bps).Ok?
    ensures Healthy(CreateWithdrawal(db, user, amount, bps).value.0)
  {
    hide Settledness, PotsSound;
    CreateWithdrawalKeeps(db, user, amount, bps);
  }

  lemma ExpireHealthy(db: Db, id: nat, writes: nat)
    requires Healthy(db) && writes >= 2
    ensures Healthy(ExpireWithdrawal(db, id, writes).0)
  {
    hide Settledness, PotsSound;
    var (db', c) := ExpireWithdrawal(db, id, writes);
    if c != Refused { FailKeeps(db, id, writes); }
  }

  lemma ConfirmWithdrawalHealthy(db: Db, user: string, id: nat, signature: string, chain: Chain, writes: nat)
    requires Healthy(db) && writes >= 3
    ensures Healthy(ConfirmWithdrawal(db, user, id, signature, chain, writes).0)
  {
    hide Settledness, PotsSound, SignatureTaken, PostEntry;
    ConfirmKeeps(db, user, id, signature, chain, writes);
    var db0 := db.(books := WithCustody(db.books, user));
    if id < |db.withdrawals| && PostEntry(db0.books, WithdrawalPosting(db0, id)).Ok? {
      PostPots(db0.books, WithdrawalPosting(db0, id));
    }
  }

  lemma ConfirmDepositHealthy(db: Db, user: string, id: nat, signature: string, chain: Chain, writes: nat)
    requires Healthy(db) && writes >= 2
    ensures Healthy(ConfirmDeposit(db, user, id, signature, chain, writes).0)
  {
    hide Settledness, PotsSound, DepositSignatureTaken, PostEntry;
    var (db', c) := ConfirmDeposit(db, user, id, signature, chain, writes);
    var db0 := db.(books := WithCustody(db.books, user));
    CustodyKeepsSettled(db, user);
    if chain.Valid? && id < |db.deposits| {
      var e := DepositPosting(db0, id, chain.observed);
      if PostEntry(db0.books, e).Ok? {
        CreditSettled(db0, e);
        PostPots(db0.books, e);
      }
    }
    DepositsAside(db, db');
    DepositsAside(db0, db');
    if chain.Valid? && id < |db.deposits| && PostEntry(db0.books, DepositPosting(db0, id, chain.observed)).Ok? {
      DepositsAside(db0.(books := PostEntry(db0.books, DepositPosting(db0, id, chain.observed)).value,
                         groups := db0.groups + 1), db');
    }
  }

  // The deposits table and the group counter matter to no commitment.
  lemma DepositsAside(db: Db, db': Db)
    ensures Settledness(db) && db'.books == db.books && db'.stakes == db.stakes && db'.withdrawals == db.withdrawals ==>
              Settledness(db')
  {
    hide Sound, RowsOf;
    if Settledness(db) && db'.books == db.books && db'.stakes == db.stakes && db'.withdrawals == db.withdrawals {
      forall u ensures CommittedUser(db', u) { assert CommittedUser(db, u); }
      UnpostedStays(db, db');
    }
  }

  lemma DoHealthy(db: Db, op: Op)
    requires Healthy(db) && EntriesOnce(db) && Completes(Plain(op)) && !op.PostOp?
    ensures Healthy(Do(db, op))
  {
    hide Healthy, EntriesOnce, Consume, Cancel, ConfirmDeposit, ConfirmWithdrawal, ExpireWithdrawal, CreateWithdrawal,
         OpenGame, Reserve, Release, PostEntry;
    match op
    case ReserveOp(_, _, _) => ReserveHealthy(db, op);
    case ReleaseOp(_, _) => ReserveHealthy(db, op);
    case ConsumeOp(tier, game, expected) =>
      if Consume(db, tier, game, expected).Ok? { ConsumeHealthy(db, tier, game, expected); }
    case CancelOp(game) => if Cancel(db, game).Ok? { CancelHealthy(db, game); }
    case OpenGameOp(game) => OpenGameHealthy(db, game);
    case CreateWithdrawalOp(user, amount, bps) =>
      if CreateWithdrawal(db, user, amount, bps).Ok? { CreateWithdrawalHealthy(db, user, amount, bps); }
    case ConfirmWithdrawalOp(user, id, signature, chain, writes) =>
      ConfirmWithdrawalHealthy(db, user, id, signature, chain, writes);
    case ExpireWithdrawalOp(id, writes) => ExpireHealthy(db, id, writes);
    case ConfirmDepositOp(user, id, signature, chain, writes) =>
      ConfirmDepositHealthy(db, user, id, signature, chain, writes);
    case _ => TablesHealthy(db, op);
  }

  lemma TablesHealthy(db: Db, op: Op)
    requires Healthy(db) && (op.CompleteGameOp? || op.CreateDepositOp? || op.ExpireDepositOp?)
    ensures Healthy(Do(db, op))
  {
    hide Settledness, PotsSound;
    DepositsAside(db, Do(db, op));
  }

  // ---- Adjustments ---------------------------------------------------------

  lemma AdjustRows(db: Db, user: string, delta: int, name: string)
    requires PotsSound(db.books.rows) && delta != 0
    ensures var db' := Adjust(db, user, delta, name).0;
            && PotsSound(db'.books.rows) && db'.stakes == db.stakes && db'.withdrawals == db.withdrawals
            && db'.deposits == db.deposits
    ensures forall base: KeyBase :: !base.OtherKey? ==>
              RowsOf(Adjust(db, user, delta, name).0.books.rows, base) == RowsOf(db.books.rows, base)
  {
    var (db', outcome) := Adjust(db, user, delta, name);
    if outcome == Applied {
      var b := WithCustody(db.books, user);
      var player := AdjustRow(db.groups, Some(user), Custody(user), delta, Indexed(AdjustKey(user, name), 0));
      var offset := AdjustRow(db.groups, None, Treasury, -delta, Indexed(AdjustKey(user, name), 1));
      AdjustTwoRows(b, player, offset, AdjustKey(user, name));
    }
    hide PotsSound, RowsOf, HasKey, AdjustRow;
  }

  lemma AdjustTwoRows(b: Books, player: Row, offset: Row, base: KeyBase)
    requires PotsSound(b.rows) && base.OtherKey? && player.account in b.accounts && offset.account in b.accounts
    requires player.amount > 0 && offset.amount > 0 && !player.account.Escrow? && !offset.account.Escrow?
    requires player.key == Indexed(base, 0) && offset.key == Indexed(base, 1)
    requires !HasKey(b.rows, player.key) && !HasKey(b.rows, offset.key)
    ensures PotsSound(Post(Post(b, player), offset).rows)
    ensures forall other: KeyBase :: other != base ==> RowsOf(Post(Post(b, player), offset).rows, other) == RowsOf(b.rows, other)
  {
    var mid := Post(b, player);
    var first, second := mid.rows[|b.rows|], Post(mid, offset).rows[|b.rows| + 1];
    assert mid.rows == b.rows + [first] && Post(mid, offset).rows == mid.rows + [second];
    HasKeySnoc(b.rows, first, second.key);
    forall other: KeyBase | other != base
      ensures RowsOf(Post(mid, offset).rows, other) == RowsOf(b.rows, other) {
      RowsOfSnoc(b.rows, first, other);
      RowsOfSnoc(mid.rows, second, other);
    }
    hide PotsSound, HasKey, RowsOf;
    AppendBystander(b.rows, first);
    AppendBystander(mid.rows, second);
  }

  lemma AdjustHealthyIff(db: Db, user: string, delta: int, name: string)
    requires Healthy(db) && delta != 0
    ensures Healthy(Adjust(db, user, delta, name).0) <==> Covered(db, Adjusting(user, delta, name))
  {
    var (db', outcome) := Adjust(db, user, delta, name);
    AdjustRows(db, user, delta, name);
    CustodyKeepsSettled(db, user);
    if outcome == Applied {
      AdjustKeepsIff(db, user, delta, name);
    } else {
      assert db' == db.(books := WithCustody(db.books, user));
    }
    assert Unposted(db') by { hide PotsSound, Adjust, Sound, Committed; UnpostedRows(db, db'); }
    hide PotsSound, Adjust, Sound, Committed, Unposted;
  }

  // Only the rows under withdrawal keys matter to it.
  lemma UnpostedRows(db: Db, db': Db)
    requires Unposted(db) && db'.withdrawals == db.withdrawals
    requires forall base: KeyBase :: !base.OtherKey? ==> RowsOf(db'.books.rows, base) == RowsOf(db.books.rows, base)
    ensures Unposted(db')
  {
    hide RowsOf;
    forall i: nat | Unpaid(db', i) ensures NothingPosted(db', i) { assert NothingPosted(db, i); }
  }

  lemma AdjustOnceStill(db: Db, user: string, delta: int, name: string)
    requires EntriesOnce(db) && PotsSound(db.books.rows) && delta != 0
    ensures EntriesOnce(Adjust(db, user, delta, name).0)
  {
    AdjustRows(db, user, delta, name);
    hide PotsSound, RowsOf, Adjust, EntriesOnce;
    OnceUntouched(db, Adjust(db, user, delta, name).0);
  }

  // ---- Runs ----------------------------------------------------------------

  lemma PerformHealthyIff(db: Db, d: Deed)
    requires Healthy(db) && EntriesOnce(db) && Completes(d)
    ensures Healthy(Perform(db, d)) <==> Covered(db, d)
    ensures EntriesOnce(Perform(db, d))
  {
    assert Audited(db) && PotsSound(db.books.rows) by { hide Sound, EntriesOnce, PotsSound; }
    hide Healthy, EntriesOnce, Do, Adjust, PostEntry, PotsSound, StillCovers, Sound;
    match d
    case Adjusting(user, delta, name) =>
      AdjustHealthyIff(db, user, delta, name);
      AdjustOnceStill(db, user, delta, name);
    case Plain(op) =>
      DoAudited(db, op);
      if op.PostOp? { PostHealthyIff(db, op); } else { DoHealthy(db, op); }
  }

  ghost predicate AlwaysHealthy(deeds: seq<Deed>) {
    forall k :: 0 <= k <= |deeds| ==> Healthy(RunDeeds(Seeded(), deeds[..k]))
  }

  ghost predicate AlwaysCovered(deeds: seq<Deed>) {
    forall k :: 0 <= k < |deeds| ==> Covered(RunDeeds(Seeded(), deeds[..k]), deeds[k])
  }

  lemma HealthySnoc(deeds: seq<Deed>, d: Deed)
    ensures AlwaysHealthy(deeds + [d]) <==> AlwaysHealthy(deeds) && Healthy(RunDeeds(Seeded(), deeds + [d]))
    ensures AlwaysCovered(deeds + [d]) <==> AlwaysCovered(deeds) && Covered(RunDeeds(Seeded(), deeds), d)
  {
    hide Healthy, Covered, RunDeeds;
    var longer := deeds + [d];
    assert longer[..|longer|] == longer && longer[..|deeds|] == deeds && longer[|deeds|] == d;
    assert forall k :: 0 <= k <= |deeds| ==> longer[..k] == deeds[..k];
    assert forall k :: 0 <= k < |deeds| ==> longer[k] == deeds[k];
    if AlwaysHealthy(longer) {
      forall k | 0 <= k <= |deeds| ensures Healthy(RunDeeds(Seeded(), deeds[..k])) {
        assert Healthy(RunDeeds(Seeded(), longer[..k]));
      }
      assert Healthy(RunDeeds(Seeded(), longer[..|longer|]));
    }
    if AlwaysCovered(longer) {
      forall k | 0 <= k < |deeds| ensures Covered(RunDeeds(Seeded(), deeds[..k]), deeds[k]) {
        assert Covered(RunDeeds(Seeded(), longer[..k]), longer[k]);
      }
      assert Covered(RunDeeds(Seeded(), longer[..|deeds|]), longer[|deeds|]);
    }
  }

  // In any run of completed operations, entries and adjustments the books stay
  // healthy exactly when every entry that posts and every adjustment that applies
  // leaves the reservations covered, and the treasury pays the adjustments.
  lemma {:induction false} HealthyIffCovered(deeds: seq<Deed>)
    requires forall i :: 0 <= i < |deeds| ==> Completes(deeds[i])
    ensures AlwaysHealthy(deeds) <==> AlwaysCovered(deeds)
    ensures AlwaysHealthy(deeds) ==> EntriesOnce(RunDeeds(Seeded(), deeds))
  {
    hide Healthy, Covered, Perform, EntriesOnce, Completes;
    SeededHealthy();
    if deeds == [] {
      assert deeds[..0] == [];
    } else {
      var front, last := deeds[..|deeds| - 1], deeds[|deeds| - 1];
      assert deeds == front + [last];
      HealthyIffCovered(front);
      HealthySnoc(front, last);
      if AlwaysHealthy(front) {
        assert front[..|front|] == front && Healthy(RunDeeds(Seeded(), front));
        PerformHealthyIff(RunDeeds(Seeded(), front), last);
      }
    }
  }

  lemma SeededHealthy()
    ensures Healthy(Seeded()) && EntriesOnce(Seeded())
  {
    var db := Seeded();
    forall u ensures CommittedUser(db, u) { }
    forall i: nat | Unpaid(db, i) ensures NothingPosted(db, i) { }
    forall g: string ensures PotHolds(db.books.rows, g) { }
  }

  // After any such run every custody account holds back exactly its stakes and its
  // open withdrawals, never more than it has; every escrow not paid out holds
  // exactly what cancelling would refund. So releases
  // are exact, no stake exceeds its balance, no refund falls short, and an open
  // withdrawal can always be posted.
  lemma {:induction false} ReservationsAlwaysMatch(deeds: seq<Deed>)
    requires AlwaysCovered(deeds) && forall i :: 0 <= i < |deeds| ==> Completes(deeds[i])
    ensures var db := RunDeeds(Seeded(), deeds);
            && (forall u: string :: Custody(u) in db.books.accounts ==>
                 var a := db.books.accounts[Custody(u)];
                 a.reserved == StakesOf(db.stakes, u) + OpenOf(db.withdrawals, u) && 0 <= a.reserved <= a.balance)
            && (forall game: string :: Escrow(game) in db.books.accounts && !PaidOut(db.books.rows, game) ==>
                 db.books.accounts[Escrow(game)].balance == SumRefunds(OwedFor(db.books.rows, game)))
            && (forall game: string :: Cancel(db, game).Err? ==> Cancel(db, game).error in {GameNotFound, AlreadySettled})
            && (forall tier: string, game: string, expected: Option<int> :: Consume(db, tier, game, expected).Err? ==>
                 !Consume(db, tier, game, expected).error.StakeExceedsBalance?)
            && (forall id: nat :: id < |db.withdrawals| && Holding(db.withdrawals[id].status) ==>
                 PostEntry(db.books, WithdrawalPosting(db, id)).Ok?)
  {
    HealthyIffCovered(deeds);
    var db := RunDeeds(Seeded(), deeds);
    assert deeds[..|deeds|] == deeds && Healthy(db) by { hide Healthy, RunDeeds; }
    hide RunDeeds, AlwaysHealthy, AlwaysCovered, Completes;
    hide Do, Sound, PotsSound, EntriesOnce, Cancel, Consume, PostEntry, PaidOut, OwedFor;
    forall u: string | Custody(u) in db.books.accounts
      ensures db.books.accounts[Custody(u)].reserved == StakesOf(db.stakes, u) + OpenOf(db.withdrawals, u)
      ensures 0 <= db.books.accounts[Custody(u)].reserved <= db.books.accounts[Custody(u)].balance {
      assert CommittedUser(db, u);
      StakesNonNegative(db.stakes, u);
      OpenNonNegative(db.withdrawals, u);
    }
    forall game: string | Escrow(game) in db.books.accounts && !PaidOut(db.books.rows, game)
      ensures db.books.accounts[Escrow(game)].balance == SumRefunds(OwedFor(db.books.rows, game)) {
      PotBalance(db.books, game);
    }
    forall game: string | Cancel(db, game).Err? ensures Cancel(db, game).error in {GameNotFound, AlreadySettled} {
      CancelKeeps(db, game);
    }
    forall tier: string, game: string, expected: Option<int> | Consume(db, tier, game, expected).Err?
      ensures !Consume(db, tier, game, expected).error.StakeExceedsBalance? {
      ConsumeKeeps(db, tier, game, expected);
    }
    forall id: nat | id < |db.withdrawals| && Holding(db.withdrawals[id].status)
      ensures PostEntry(db.books, WithdrawalPosting(db, id)).Ok? {
      assert Unpaid(db, id);
      WithdrawalPosts(db, id);
    }
  }
}
