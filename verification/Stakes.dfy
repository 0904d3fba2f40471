// Entry-fee reservations: taken at join, released on leaving, consumed into a
// game's escrow when the match starts.
module Stakes {
  import opened Options
  import opened Ledger

  // One reservation per player and tier.
  datatype Reservation = Reservation(user: string, tier: string, lamports: int)

  datatype WithdrawalStatus =
    | Requested | PendingReview | Approved | Submitted | WithdrawalConfirmed | WithdrawalFailed | Rejected

  datatype Withdrawal =
    Withdrawal(user: string, amount: int, fee: int, status: WithdrawalStatus, signature: Option<string>)

  datatype DepositStatus = DepositPending | DepositConfirmed | DepositFailed | DepositExpired

  datatype Deposit = Deposit(user: string, amount: int, status: DepositStatus, signature: Option<string>)

  datatype GameStatus = Pending | Running | Completed | Cancelled

  // The tables the money code touches. Withdrawal and deposit ids are row
  // numbers; `groups` numbers the entry groups handed out so far.
  datatype Db = Db(
    books: Books,
    stakes: seq<Reservation>,
    withdrawals: seq<Withdrawal>,
    deposits: seq<Deposit>,
    games: map<string, GameStatus>,
    groups: nat)

  datatype MoneyError =
    | NegativeFee
    | InsufficientBalance(required: int, available: int)
    | StakeMismatch(staked: int, expected: int)
    | EscrowMissing
    | StakeExceedsBalance(user: string)
    | DuplicateKey
    | GameNotFound
    | AlreadySettled
    | RefundShortfall(owed: int, available: int)

  function Spendable(a: Account): int {
    if a.balance - a.reserved > 0 then a.balance - a.reserved else 0
  }

  // ---- Account writes ------------------------------------------------------

  function WithCustody(b: Books, user: string): Books {
    if Custody(user) in b.accounts then b else b.(accounts := b.accounts[Custody(user) := Account(0, 0)])
  }

  function SetReserved(b: Books, a: AccountId, reserved: int): Books
    requires a in b.accounts
  {
    b.(accounts := b.accounts[a := b.accounts[a].(reserved := reserved)])
  }

  // Takes `amount` off a reservation total, never below zero.
  function Less(reserved: int, amount: int): int {
    if reserved > amount then reserved - amount else 0
  }

  // One movement between two accounts: a debit row and a credit row.
  datatype Movement = Movement(
    from: AccountId, to: AccountId, amount: int, kind: EntryType, user: string, game: string,
    group: nat, debitKey: Key, creditKey: Key)

  function DebitRow(m: Movement): Row {
    Row(m.group, m.kind, Debit, m.amount, 0, Some(m.user), m.from, Some(m.game), m.debitKey)
  }

  function CreditRow(m: Movement): Row {
    Row(m.group, m.kind, Credit, m.amount, 0, Some(m.user), m.to, Some(m.game), m.creditKey)
  }

  function Move(b: Books, m: Movement): Books
    requires m.from in b.accounts && m.to in b.accounts
  {
    Post(Post(b, DebitRow(m)), CreditRow(m))
  }

  lemma MoveKeeps(b: Books, m: Movement)
    requires Sound(b) && m.from in b.accounts && m.to in b.accounts && m.from != m.to
    requires 0 < m.amount <= b.accounts[m.from].balance
    requires !HasKey(b.rows, m.debitKey) && !HasKey(b.rows, m.creditKey) && m.debitKey != m.creditKey
    ensures var b' := Move(b, m);
            && Sound(b')
            && b'.accounts == b.accounts
                 [m.from := b.accounts[m.from].(balance := b.accounts[m.from].balance - m.amount)]
                 [m.to := b.accounts[m.to].(balance := b.accounts[m.to].balance + m.amount)]
            && b'.rows == b.rows + [
                 DebitRow(m).(balanceAfter := b.accounts[m.from].balance - m.amount),
                 CreditRow(m).(balanceAfter := b.accounts[m.to].balance + m.amount)]
  {
    var mid := Post(b, DebitRow(m));
    PostConsistent(b, DebitRow(m));
    assert mid.rows[|b.rows|].key == m.debitKey;
    forall i | 0 <= i < |mid.rows| ensures mid.rows[i].key != m.creditKey {
      if i < |b.rows| { assert mid.rows[i] == b.rows[i]; }
    }
    PostConsistent(mid, CreditRow(m));
    var b' := Move(b, m);
    assert b'.rows == b.rows + [
      DebitRow(m).(balanceAfter := b.accounts[m.from].balance - m.amount),
      CreditRow(m).(balanceAfter := b.accounts[m.to].balance + m.amount)];
    hide Consistent, HasKey;
    MoveBalances(b, m);
    assert Solvent(b');
  }

  lemma MoveBalances(b: Books, m: Movement)
    requires GroupsBalance(b.rows) && m.from in b.accounts && m.to in b.accounts
    ensures GroupsBalance(Move(b, m).rows)
  {
    var mid, b' := Post(b, DebitRow(m)), Move(b, m);
    var d, c := mid.rows[|b.rows|], b'.rows[|b.rows| + 1];
    assert mid.rows == b.rows + [d] && b'.rows == mid.rows + [c];
    Snoc(b.rows, d);
    Snoc(mid.rows, c);
    forall g ensures GroupNet(b'.rows, g) == 0 { assert GroupNet(b.rows, g) == 0; }
  }

  lemma WithCustodyKeeps(b: Books, user: string)
    requires Sound(b)
    ensures Sound(WithCustody(b, user)) && WithCustody(b, user).rows == b.rows
  {
    var b' := WithCustody(b, user);
    if Custody(user) !in b.accounts {
      forall i | 0 <= i < |b.rows| ensures b.rows[i].account != Custody(user) && RowConsistent(b', i) {
        assert RowConsistent(b, i);
      }
      NetUntouched(b.rows, Custody(user));
    }
  }

  lemma {:induction false} NetUntouched(rows: seq<Row>, a: AccountId)
    requires forall i :: 0 <= i < |rows| ==> rows[i].account != a
    ensures Net(rows, a) == 0
  {
    if rows != [] { NetUntouched(rows[..|rows| - 1], a); }
  }

  lemma SetReservedKeeps(b: Books, a: AccountId, reserved: int)
    requires a in b.accounts
    ensures Sound(b) ==> Sound(SetReserved(b, a, reserved))
  {
    if Sound(b) {
      var b' := SetReserved(b, a, reserved);
      forall i | 0 <= i < |b'.rows| ensures RowConsistent(b', i) { assert RowConsistent(b, i); }
    }
  }

  // ---- Reservations --------------------------------------------------------

  function FindStake(stakes: seq<Reservation>, user: string, tier: string): (i: nat)
    ensures i <= |stakes|
    ensures i < |stakes| ==> stakes[i].user == user && stakes[i].tier == tier
    ensures forall j :: 0 <= j < i ==> !(stakes[j].user == user && stakes[j].tier == tier)
  {
    if stakes == [] then 0
    else if stakes[0].user == user && stakes[0].tier == tier then 0
    else 1 + FindStake(stakes[1..], user, tier)
  }

  datatype Reserved = Reserved(lamports: int, already: bool, spendableAfter: int)

  function Reserve(db: Db, user: string, tier: string, lamports: int): (Db, Result<Reserved, MoneyError>) {
    if lamports < 0 then (db, Err(NegativeFee))
    else
      var db' := db.(books := WithCustody(db.books, user));
      var account := db'.books.accounts[Custody(user)];
      var i := FindStake(db.stakes, user, tier);
      if lamports == 0 then (db', Ok(Reserved(0, false, Spendable(account))))
      else if i < |db.stakes| then (db', Ok(Reserved(db.stakes[i].lamports, true, Spendable(account))))
      else if Spendable(account) < lamports then (db', Err(InsufficientBalance(lamports, Spendable(account))))
      else
        (db'.(books := SetReserved(db'.books, Custody(user), account.reserved + lamports),
              stakes := db.stakes + [Reservation(user, tier, lamports)]),
         Ok(Reserved(lamports, false, Spendable(account) - lamports)))
  }

  function Release(db: Db, user: string, tier: string): (Db, int) {
    var i := FindStake(db.stakes, user, tier);
    if i == |db.stakes| then (db, 0)
    else
      var lamports := db.stakes[i].lamports;
      var books := if Custody(user) in db.books.accounts
                   then SetReserved(db.books, Custody(user), Less(db.books.accounts[Custody(user)].reserved, lamports))
                   else db.books;
      (db.(books := books, stakes := db.stakes[..i] + db.stakes[i + 1..]), lamports)
  }

  function InTier(stakes: seq<Reservation>, tier: string): seq<Reservation> {
    if stakes == [] then []
    else
      var front := InTier(stakes[..|stakes| - 1], tier);
      if stakes[|stakes| - 1].tier == tier then front + [stakes[|stakes| - 1]] else front
  }

  function NotInTier(stakes: seq<Reservation>, tier: string): seq<Reservation> {
    if stakes == [] then []
    else
      var front := NotInTier(stakes[..|stakes| - 1], tier);
      if stakes[|stakes| - 1].tier == tier then front else front + [stakes[|stakes| - 1]]
  }

  function SumStakes(stakes: seq<Reservation>): int {
    if stakes == [] then 0 else SumStakes(stakes[..|stakes| - 1]) + stakes[|stakes| - 1].lamports
  }

  function StakesOf(stakes: seq<Reservation>, user: string): int {
    if stakes == [] then 0
    else StakesOf(stakes[..|stakes| - 1], user) +
         (if stakes[|stakes| - 1].user == user then stakes[|stakes| - 1].lamports else 0)
  }

  function StakeMove(s: Reservation, game: string, group: nat): Movement {
    Movement(Custody(s.user), Escrow(game), s.lamports, EntryFee, s.user, game, group,
             Stake(game, s.user), StakeEscrow(game, s.user))
  }

  // One stake into the pot. A reservation without a custody account is skipped.
  function ConsumeOne(b: Books, s: Reservation, game: string, group: nat): Result<Books, MoneyError>
    requires Escrow(game) in b.accounts
  {
    var m := StakeMove(s, game, group);
    if m.from !in b.accounts then Ok(b)
    else if b.accounts[m.from].balance < s.lamports then Err(StakeExceedsBalance(s.user))
    else if HasKey(b.rows, m.debitKey) || HasKey(b.rows, m.creditKey) then Err(DuplicateKey)
    else Ok(Move(SetReserved(b, m.from, Less(b.accounts[m.from].reserved, s.lamports)), m))
  }

  function ConsumeFirst(b: Books, rows: seq<Reservation>, game: string, group: nat, n: nat)
    : (r: Result<Books, MoneyError>)
    requires n <= |rows| && Escrow(game) in b.accounts
    ensures r.Ok? ==> r.value.accounts.Keys == b.accounts.Keys
  {
    if n == 0 then Ok(b)
    else
      var r := ConsumeFirst(b, rows, game, group, n - 1);
      if r.Err? then r else ConsumeOne(r.value, rows[n - 1], game, group + n - 1)
  }

  // The stakes that have a custody account to come from.
  function Funded(b: Books, rows: seq<Reservation>): seq<Reservation> {
    if rows == [] then []
    else
      var front := Funded(b, rows[..|rows| - 1]);
      if Custody(rows[|rows| - 1].user) in b.accounts then front + [rows[|rows| - 1]] else front
  }

  datatype Consumed = Consumed(count: nat, total: int)

  // Atomic: an error leaves the database as it was.
  function Consume(db: Db, tier: string, game: string, expected: Option<int>): Result<(Db, Consumed), MoneyError> {
    var rows := InTier(db.stakes, tier);
    if expected.Some? && SumStakes(rows) != expected.value then Err(StakeMismatch(SumStakes(rows), expected.value))
    else if rows == [] then Ok((db, Consumed(0, 0)))
    else if Escrow(game) !in db.books.accounts then Err(EscrowMissing)
    else
      match ConsumeFirst(db.books, rows, game, db.groups, |rows|)
      case Err(e) => Err(e)
      case Ok(books) =>
        var paid := Funded(db.books, rows);
        Ok((db.(books := books, stakes := NotInTier(db.stakes, tier), groups := db.groups + |rows|),
            Consumed(|paid|, SumStakes(paid))))
  }

  // ---- Commitments ---------------------------------------------------------

  // Statuses under which a withdrawal still holds its reservation.
  predicate Holding(s: WithdrawalStatus) {
    s in {Requested, PendingReview, Approved, Submitted}
  }

  function OpenOf(ws: seq<Withdrawal>, user: string): int {
    if ws == [] then 0
    else OpenOf(ws[..|ws| - 1], user) +
         (if ws[|ws| - 1].user == user && Holding(ws[|ws| - 1].status) then ws[|ws| - 1].amount else 0)
  }

  function Commitments(db: Db, user: string): int {
    StakesOf(db.stakes, user) + OpenOf(db.withdrawals, user)
  }

  predicate StakesValid(stakes: seq<Reservation>) {
    && (forall i :: 0 <= i < |stakes| ==> stakes[i].lamports > 0)
    && forall i, j :: 0 <= i < j < |stakes| ==> !(stakes[i].user == stakes[j].user && stakes[i].tier == stakes[j].tier)
  }

  predicate WithdrawalsValid(ws: seq<Withdrawal>) {
    forall i :: 0 <= i < |ws| ==> 0 <= ws[i].fee < ws[i].amount
  }

  // What each custody account holds back is exactly what its player has
  // committed, and never more than is there.
  ghost predicate Committed(db: Db) {
    && StakesValid(db.stakes) && WithdrawalsValid(db.withdrawals)
    && forall u: string :: CommittedUser(db, u)
  }

  ghost predicate CommittedUser(db: Db, u: string) {
    if Custody(u) in db.books.accounts then
      var a := db.books.accounts[Custody(u)];
      a.reserved == Commitments(db, u) && a.reserved <= a.balance
    else Commitments(db, u) == 0
  }

  lemma {:induction false} StakesNonNegative(stakes: seq<Reservation>, user: string)
    requires forall i :: 0 <= i < |stakes| ==> stakes[i].lamports > 0
    ensures StakesOf(stakes, user) >= 0
  {
    if stakes != [] { StakesNonNegative(stakes[..|stakes| - 1], user); }
  }

  lemma {:induction false} OpenNonNegative(ws: seq<Withdrawal>, user: string)
    requires WithdrawalsValid(ws)
    ensures OpenOf(ws, user) >= 0
  {
    if ws != [] { OpenNonNegative(ws[..|ws| - 1], user); }
  }

  lemma {:induction false} StakesSplit(stakes: seq<Reservation>, k: nat, user: string)
    requires k <= |stakes|
    ensures StakesOf(stakes, user) == StakesOf(stakes[..k], user) + StakesOf(stakes[k..], user)
  {
    if k == |stakes| {
      assert stakes[..k] == stakes;
    } else {
      var front := stakes[..|stakes| - 1];
      StakesSplit(front, k, user);
      assert front[..k] == stakes[..k] && stakes[k..][..|stakes[k..]| - 1] == front[k..];
    }
  }

  lemma StakesPlusOne(stakes: seq<Reservation>, s: Reservation, user: string)
    ensures StakesOf(stakes + [s], user) == StakesOf(stakes, user) + (if s.user == user then s.lamports else 0)
  {
    assert (stakes + [s])[..|stakes|] == stakes;
  }

  lemma StakesWithout(stakes: seq<Reservation>, i: nat, user: string)
    requires i < |stakes|
    ensures StakesOf(stakes[..i] + stakes[i + 1..], user) ==
            StakesOf(stakes, user) - (if stakes[i].user == user then stakes[i].lamports else 0)
  {
    var rest := stakes[..i] + stakes[i + 1..];
    StakesSplit(rest, i, user);
    assert rest[..i] == stakes[..i] && rest[i..] == stakes[i + 1..];
    StakesSplit(stakes, i + 1, user);
    assert stakes[..i + 1][..i] == stakes[..i];
  }

  // Reserving keeps the commitments exact whatever its outcome, and takes the
  // fee off what is spendable exactly once per player and tier.
  lemma ReserveKeeps(db: Db, user: string, tier: string, lamports: int)
    requires Sound(db.books) && Committed(db)
    ensures var (db', r) := Reserve(db, user, tier, lamports);
            && Sound(db'.books) && Committed(db')
            && (r.Ok? <==>
                 && 0 <= lamports
                 && (lamports == 0 || FindStake(db.stakes, user, tier) < |db.stakes| ||
                     lamports <= Spendable(WithCustody(db.books, user).accounts[Custody(user)])))
            && (r.Ok? ==> r.value.spendableAfter == Spendable(db'.books.accounts[Custody(user)]))
  {
    WithCustodyKeeps(db.books, user);
    var (db', r) := Reserve(db, user, tier, lamports);
    assert CommittedUser(db, user);
    StakesNonNegative(db.stakes, user);
    OpenNonNegative(db.withdrawals, user);
    if lamports > 0 {
      SetReservedKeeps(WithCustody(db.books, user), Custody(user),
                       WithCustody(db.books, user).accounts[Custody(user)].reserved + lamports);
    }
    forall u ensures CommittedUser(db', u) {
      assert CommittedUser(db, u);
      StakesPlusOne(db.stakes, Reservation(user, tier, lamports), u);
    }
  }

  lemma DistinctWithout(stakes: seq<Reservation>, i: nat)
    requires StakesValid(stakes) && i < |stakes|
    ensures StakesValid(stakes[..i] + stakes[i + 1..])
    ensures var rest := stakes[..i] + stakes[i + 1..];
            FindStake(rest, stakes[i].user, stakes[i].tier) == |rest|
  {
    var rest := stakes[..i] + stakes[i + 1..];
    forall k | 0 <= k < |rest| ensures !(rest[k].user == stakes[i].user && rest[k].tier == stakes[i].tier) {
      assert rest[k] == stakes[if k < i then k else k + 1];
    }
  }

  // Releasing gives back exactly what was reserved, once: the clamp never bites,
  // and a second release finds nothing.
  lemma ReleaseKeeps(db: Db, user: string, tier: string)
    requires Sound(db.books) && Committed(db)
    ensures var (db', released) := Release(db, user, tier);
            && Sound(db'.books) && Committed(db')
            && FindStake(db'.stakes, user, tier) == |db'.stakes|
            && (Custody(user) in db.books.accounts ==>
                 db'.books.accounts == db.books.accounts[Custody(user) :=
                   db.books.accounts[Custody(user)].(reserved := db.books.accounts[Custody(user)].reserved - released)])
            && Release(db', user, tier) == (db', 0)
  {
    ReleaseSettles(db, user, tier);
    ReleaseCommitted(db, user, tier);
  }

  lemma ReleaseSettles(db: Db, user: string, tier: string)
    requires Sound(db.books) && Committed(db)
    ensures var (db', released) := Release(db, user, tier);
            && FindStake(db'.stakes, user, tier) == |db'.stakes| && Release(db', user, tier) == (db', 0)
  {
    hide Sound, CommittedUser, SetReserved;
    var i := FindStake(db.stakes, user, tier);
    if i < |db.stakes| { DistinctWithout(db.stakes, i); }
  }

  lemma ReleaseCommitted(db: Db, user: string, tier: string)
    requires Sound(db.books) && Committed(db)
    ensures var (db', released) := Release(db, user, tier);
            && Sound(db'.books) && Committed(db')
            && (Custody(user) in db.books.accounts ==>
                 db'.books.accounts == db.books.accounts[Custody(user) :=
                   db.books.accounts[Custody(user)].(reserved := db.books.accounts[Custody(user)].reserved - released)])
  {
    var i := FindStake(db.stakes, user, tier);
    hide Sound, FindStake;
    if i < |db.stakes| {
      assert db.stakes[i].user == user;
      assert CommittedUser(db, user);
      ClampIdle(db, i);
      DistinctWithout(db.stakes, i);
      var (db', released) := Release(db, user, tier);
      if Custody(user) in db.books.accounts {
        SetReservedKeeps(db.books, Custody(user), Less(db.books.accounts[Custody(user)].reserved, released));
      }
      forall u ensures CommittedUser(db', u) {
        assert CommittedUser(db, u);
        StakesWithout(db.stakes, i, u);
      }
    } else if Custody(user) in db.books.accounts {
      assert db.books.accounts[Custody(user) := db.books.accounts[Custody(user)]] == db.books.accounts;
    }
  }

  // A player's reserved amount covers each of its stakes.
  lemma ClampIdle(db: Db, i: nat)
    requires Committed(db) && i < |db.stakes|
    ensures Custody(db.stakes[i].user) in db.books.accounts
    ensures db.stakes[i].lamports <= db.books.accounts[Custody(db.stakes[i].user)].reserved
  {
    var user := db.stakes[i].user;
    var rest := db.stakes[..i] + db.stakes[i + 1..];
    assert CommittedUser(db, user);
    StakesWithout(db.stakes, i, user);
    DistinctWithout(db.stakes, i);
    StakesNonNegative(rest, user);
    OpenNonNegative(db.withdrawals, user);
  }

  // ---- Consuming -----------------------------------------------------------

  predicate DistinctUsers(rows: seq<Reservation>) {
    forall i, j :: 0 <= i < j < |rows| ==> rows[i].user != rows[j].user
  }

  lemma {:induction false} TierMembers(stakes: seq<Reservation>, tier: string)
    ensures forall s :: s in InTier(stakes, tier) <==> s in stakes && s.tier == tier
    ensures forall s :: s in NotInTier(stakes, tier) <==> s in stakes && s.tier != tier
  {
    if stakes != [] {
      var front := stakes[..|stakes| - 1];
      TierMembers(front, tier);
      assert stakes == front + [stakes[|stakes| - 1]];
    }
  }

  lemma {:induction false} TierSums(stakes: seq<Reservation>, tier: string, u: string)
    ensures StakesOf(stakes, u) == StakesOf(InTier(stakes, tier), u) + StakesOf(NotInTier(stakes, tier), u)
  {
    if stakes != [] {
      var front := stakes[..|stakes| - 1];
      var last := stakes[|stakes| - 1];
      TierSums(front, tier, u);
      StakesPlusOne(InTier(front, tier), last, u);
      StakesPlusOne(NotInTier(front, tier), last, u);
    }
  }

  lemma ValidSnoc(stakes: seq<Reservation>, s: Reservation)
    requires StakesValid(stakes) && s.lamports > 0
    requires forall o :: o in stakes ==> !(o.user == s.user && o.tier == s.tier)
    ensures StakesValid(stakes + [s])
  {
    forall i | 0 <= i < |stakes| ensures !(stakes[i].user == s.user && stakes[i].tier == s.tier) {
      assert stakes[i] in stakes;
    }
  }

  lemma {:induction false} TierValid(stakes: seq<Reservation>, tier: string)
    requires StakesValid(stakes)
    ensures StakesValid(InTier(stakes, tier)) && StakesValid(NotInTier(stakes, tier))
  {
    if stakes != [] {
      var front := stakes[..|stakes| - 1];
      var last := stakes[|stakes| - 1];
      TierValid(front, tier);
      TierMembers(front, tier);
      forall o | o in front ensures !(o.user == last.user && o.tier == last.tier) {
        var i :| 0 <= i < |front| && front[i] == o;
        assert stakes[i] == o;
      }
      if last.tier == tier { ValidSnoc(InTier(front, tier), last); } else { ValidSnoc(NotInTier(front, tier), last); }
    }
  }

  lemma TierSplit(stakes: seq<Reservation>, tier: string)
    requires StakesValid(stakes)
    ensures forall u :: StakesOf(stakes, u) == StakesOf(InTier(stakes, tier), u) + StakesOf(NotInTier(stakes, tier), u)
    ensures StakesValid(NotInTier(stakes, tier)) && StakesValid(InTier(stakes, tier))
    ensures DistinctUsers(InTier(stakes, tier))
  {
    forall u ensures StakesOf(stakes, u) == StakesOf(InTier(stakes, tier), u) + StakesOf(NotInTier(stakes, tier), u) {
      TierSums(stakes, tier, u);
    }
    TierValid(stakes, tier);
    TierMembers(stakes, tier);
    var rows := InTier(stakes, tier);
    forall i, j | 0 <= i < j < |rows| ensures rows[i].user != rows[j].user {
      assert rows[i] in rows && rows[j] in rows;
    }
  }

  // No row has used these players' stake keys for this game.
  predicate FreshStakes(b: Books, rows: seq<Reservation>, game: string) {
    forall i :: 0 <= i < |rows| ==>
      !HasKey(b.rows, Stake(game, rows[i].user)) && !HasKey(b.rows, StakeEscrow(game, rows[i].user))
  }

  // The balances, reservations and rows after the first `n` stakes.
  ghost predicate ConsumedFirst(b: Books, b': Books, rows: seq<Reservation>, game: string, group: nat, n: nat)
    requires n <= |rows| && Escrow(game) in b.accounts
  {
    && Sound(b')
    && b'.accounts.Keys == b.accounts.Keys
    && (forall u: string :: Custody(u) in b.accounts ==> ConsumedUser(b, b', rows[..n], u))
    && (forall a :: a in b.accounts && !a.Custody? && a != Escrow(game) ==> b'.accounts[a] == b.accounts[a])
    && b'.accounts[Escrow(game)] ==
         b.accounts[Escrow(game)].(balance := b.accounts[Escrow(game)].balance + SumStakes(rows[..n]))
    && |b'.rows| == |b.rows| + 2 * n && b'.rows[..|b.rows|] == b.rows
    && forall k :: 0 <= k < n ==> StakeRowsAt(b'.rows, |b.rows| + 2 * k, rows[k], game, group + k)
  }

  predicate ConsumedUser(b: Books, b': Books, taken: seq<Reservation>, u: string) {
    && Custody(u) in b.accounts && Custody(u) in b'.accounts
    && var a := b.accounts[Custody(u)];
       b'.accounts[Custody(u)] == Account(a.balance - StakesOf(taken, u), a.reserved - StakesOf(taken, u))
  }

  predicate StakeRowsAt(rows: seq<Row>, at: nat, s: Reservation, game: string, group: nat) {
    && at + 1 < |rows|
    && rows[at] == DebitRow(StakeMove(s, game, group)).(balanceAfter := rows[at].balanceAfter)
    && rows[at + 1] == CreditRow(StakeMove(s, game, group)).(balanceAfter := rows[at + 1].balanceAfter)
  }

  lemma ConsumeOneKeeps(b: Books, s: Reservation, game: string, group: nat)
    requires Sound(b) && Escrow(game) in b.accounts && Custody(s.user) in b.accounts
    requires 0 < s.lamports <= b.accounts[Custody(s.user)].reserved <= b.accounts[Custody(s.user)].balance
    requires !HasKey(b.rows, Stake(game, s.user)) && !HasKey(b.rows, StakeEscrow(game, s.user))
    ensures ConsumeOne(b, s, game, group).Ok?
    ensures var b' := ConsumeOne(b, s, game, group).value;
            var c := b.accounts[Custody(s.user)];
            var e := b.accounts[Escrow(game)];
            && Sound(b')
            && b'.accounts == b.accounts[Custody(s.user) := Account(c.balance - s.lamports, c.reserved - s.lamports)]
                                        [Escrow(game) := e.(balance := e.balance + s.lamports)]
            && |b'.rows| == |b.rows| + 2 && b'.rows[..|b.rows|] == b.rows
            && StakeRowsAt(b'.rows, |b.rows|, s, game, group)
  {
    var m := StakeMove(s, game, group);
    var b1 := SetReserved(b, m.from, Less(b.accounts[m.from].reserved, s.lamports));
    SetReservedKeeps(b, m.from, Less(b.accounts[m.from].reserved, s.lamports));
    MoveKeeps(b1, m);
  }

  lemma ConsumedSnoc(b: Books, mid: Books, b': Books, rows: seq<Reservation>, game: string, group: nat, n: nat)
    requires n < |rows| && Escrow(game) in b.accounts && Custody(rows[n].user) in b.accounts
    requires ConsumedFirst(b, mid, rows, game, group, n) && Sound(b')
    requires var s := rows[n];
             var c := mid.accounts[Custody(s.user)];
             var e := mid.accounts[Escrow(game)];
             b'.accounts == mid.accounts[Custody(s.user) := Account(c.balance - s.lamports, c.reserved - s.lamports)]
                                        [Escrow(game) := e.(balance := e.balance + s.lamports)]
    requires |b'.rows| == |mid.rows| + 2 && b'.rows[..|mid.rows|] == mid.rows
    requires StakeRowsAt(b'.rows, |mid.rows|, rows[n], game, group + n)
    ensures ConsumedFirst(b, b', rows, game, group, n + 1)
  {
    hide Sound;
    assert rows[..n + 1][..n] == rows[..n];
    forall u: string | Custody(u) in b.accounts ensures ConsumedUser(b, b', rows[..n + 1], u) {
      assert ConsumedUser(b, mid, rows[..n], u);
    }
    forall k | 0 <= k < n + 1 ensures StakeRowsAt(b'.rows, |b.rows| + 2 * k, rows[k], game, group + k) {
      if k < n {
        assert StakeRowsAt(mid.rows, |b.rows| + 2 * k, rows[k], game, group + k);
        assert b'.rows[|b.rows| + 2 * k] == b'.rows[..|mid.rows|][|b.rows| + 2 * k];
        assert b'.rows[|b.rows| + 2 * k + 1] == b'.rows[..|mid.rows|][|b.rows| + 2 * k + 1];
      }
    }
    assert b'.rows[..|b.rows|] == b'.rows[..|mid.rows|][..|b.rows|];
  }

  lemma ConsumedNone(b: Books, rows: seq<Reservation>, game: string, group: nat)
    requires Sound(b) && Escrow(game) in b.accounts
    ensures ConsumedFirst(b, b, rows, game, group, 0)
  {
    hide Sound;
    assert rows[..0] == [];
    assert b.rows[..|b.rows|] == b.rows;
  }

  lemma {:induction false} ConsumeFirstKeeps(b: Books, rows: seq<Reservation>, game: string, group: nat, n: nat)
    requires n <= |rows| && Sound(b) && Escrow(game) in b.accounts
    requires StakesValid(rows) && DistinctUsers(rows) && FreshStakes(b, rows, game)
    requires forall i :: 0 <= i < |rows| ==> Custody(rows[i].user) in b.accounts
    requires forall u :: Custody(u) in b.accounts ==>
               StakesOf(rows, u) <= b.accounts[Custody(u)].reserved <= b.accounts[Custody(u)].balance
    ensures ConsumeFirst(b, rows, game, group, n).Ok?
    ensures ConsumedFirst(b, ConsumeFirst(b, rows, game, group, n).value, rows, game, group, n)
  {
    hide Sound, HasKey, ConsumeOne, FreshStakes, ConsumedFirst;
    if n == 0 {
      ConsumedNone(b, rows, game, group);
    } else {
      ConsumeFirstKeeps(b, rows, game, group, n - 1);
      var mid := ConsumeFirst(b, rows, game, group, n - 1).value;
      var s := rows[n - 1];
      NextStake(b, mid, rows, game, group, n - 1);
      ConsumeOneKeeps(mid, s, game, group + n - 1);
      ConsumedSnoc(b, mid, ConsumeFirst(b, rows, game, group, n).value, rows, game, group, n - 1);
    }
  }

  lemma NextStake(b: Books, mid: Books, rows: seq<Reservation>, game: string, group: nat, n: nat)
    requires n < |rows| && Escrow(game) in b.accounts && Custody(rows[n].user) in b.accounts
    requires ConsumedFirst(b, mid, rows, game, group, n)
    requires StakesValid(rows) && DistinctUsers(rows) && FreshStakes(b, rows, game)
    requires StakesOf(rows, rows[n].user) <= b.accounts[Custody(rows[n].user)].reserved
                                          <= b.accounts[Custody(rows[n].user)].balance
    ensures Custody(rows[n].user) in mid.accounts && Sound(mid)
    ensures 0 < rows[n].lamports <= mid.accounts[Custody(rows[n].user)].reserved
                                 <= mid.accounts[Custody(rows[n].user)].balance
    ensures !HasKey(mid.rows, Stake(game, rows[n].user)) && !HasKey(mid.rows, StakeEscrow(game, rows[n].user))
  {
    hide Sound, HasKey, FreshStakes, DistinctUsers;
    var u := rows[n].user;
    assert ConsumedUser(b, mid, rows[..n], u) && rows[n].lamports > 0;
    UnspentStake(rows, n);
    StakeKeysFresh(b, mid, rows, game, group, n);
    hide ConsumedFirst, StakesOf, StakesValid;
  }

  lemma {:induction false} StakesOfAbsent(rows: seq<Reservation>, user: string)
    requires forall i :: 0 <= i < |rows| ==> rows[i].user != user
    ensures StakesOf(rows, user) == 0
  {
    if rows != [] { StakesOfAbsent(rows[..|rows| - 1], user); }
  }

  lemma StakeKeysFresh(b: Books, mid: Books, rows: seq<Reservation>, game: string, group: nat, n: nat)
    requires n < |rows| && Escrow(game) in b.accounts
    requires ConsumedFirst(b, mid, rows, game, group, n) && DistinctUsers(rows) && FreshStakes(b, rows, game)
    ensures !HasKey(mid.rows, Stake(game, rows[n].user)) && !HasKey(mid.rows, StakeEscrow(game, rows[n].user))
  {
    hide Sound;
    var u := rows[n].user;
    forall i | 0 <= i < |mid.rows| ensures mid.rows[i].key != Stake(game, u) && mid.rows[i].key != StakeEscrow(game, u) {
      if i < |b.rows| {
        assert mid.rows[i] == mid.rows[..|b.rows|][i];
      } else {
        var k := (i - |b.rows|) / 2;
        assert StakeRowsAt(mid.rows, |b.rows| + 2 * k, rows[k], game, group + k);
        assert i == |b.rows| + 2 * k || i == |b.rows| + 2 * k + 1;
      }
    }
  }

  lemma {:induction false} FundedAll(b: Books, rows: seq<Reservation>)
    requires forall i :: 0 <= i < |rows| ==> Custody(rows[i].user) in b.accounts
    ensures Funded(b, rows) == rows
  {
    if rows != [] { FundedAll(b, rows[..|rows| - 1]); }
  }

  lemma {:induction false} StakeCounts(stakes: seq<Reservation>, i: nat)
    requires i < |stakes| && forall k :: 0 <= k < |stakes| ==> stakes[k].lamports > 0
    ensures StakesOf(stakes, stakes[i].user) > 0
  {
    StakesSplit(stakes, i + 1, stakes[i].user);
    StakesNonNegative(stakes[i + 1..], stakes[i].user);
    StakesNonNegative(stakes[..i], stakes[i].user);
    assert stakes[..i + 1][..i] == stakes[..i];
  }

  // What the commitments say about one tier's reservations.
  lemma TierIsCovered(db: Db, tier: string)
    requires Sound(db.books) && Committed(db)
    ensures var rows := InTier(db.stakes, tier);
            && StakesValid(rows) && DistinctUsers(rows)
            && (forall i :: 0 <= i < |rows| ==> Custody(rows[i].user) in db.books.accounts)
            && forall u :: Custody(u) in db.books.accounts ==>
                 StakesOf(rows, u) <= db.books.accounts[Custody(u)].reserved <= db.books.accounts[Custody(u)].balance
  {
    hide Sound;
    var rows := InTier(db.stakes, tier);
    TierSplit(db.stakes, tier);
    forall u | Custody(u) in db.books.accounts
      ensures StakesOf(rows, u) <= db.books.accounts[Custody(u)].reserved <= db.books.accounts[Custody(u)].balance {
      assert CommittedUser(db, u);
      StakesNonNegative(NotInTier(db.stakes, tier), u);
      OpenNonNegative(db.withdrawals, u);
    }
    forall i | 0 <= i < |rows| ensures Custody(rows[i].user) in db.books.accounts {
      assert CommittedUser(db, rows[i].user);
      StakeCounts(rows, i);
      StakesNonNegative(NotInTier(db.stakes, tier), rows[i].user);
      OpenNonNegative(db.withdrawals, rows[i].user);
    }
  }

  // Consuming a tier moves exactly each player's stake, and its reservation,
  // into the pot, leaves every other commitment exact, and can only be refused
  // for a mismatched total, a missing escrow, or stakes this game already took.
  lemma ConsumeKeeps(db: Db, tier: string, game: string, expected: Option<int>)
    requires Sound(db.books) && Committed(db)
    ensures var rows := InTier(db.stakes, tier);
            var r := Consume(db, tier, game, expected);
            && (r.Err? ==>
                 || (r.error.StakeMismatch? && expected.Some? && expected.value != SumStakes(rows))
                 || (r.error.EscrowMissing? && rows != [] && Escrow(game) !in db.books.accounts)
                 || (r.error.DuplicateKey? && !FreshStakes(db.books, rows, game)))
            && (r.Ok? && rows != [] ==> FreshStakes(db.books, rows, game))
            && (r.Ok? ==>
                 var (db', c) := r.value;
                 && Sound(db'.books) && Committed(db')
                 && c == Consumed(|rows|, SumStakes(rows))
                 && db'.stakes == NotInTier(db.stakes, tier)
                 && db'.withdrawals == db.withdrawals && db'.games == db.games
                 && (rows == [] ==> db' == db)
                 && (rows != [] ==> Escrow(game) in db.books.accounts &&
                                    ConsumedFirst(db.books, db'.books, rows, game, db.groups, |rows|)))
  {
    hide Sound, HasKey, ConsumeFirst, ConsumedFirst, FreshStakes, StakesValid, CommittedUser;
    var rows := InTier(db.stakes, tier);
    TierSplit(db.stakes, tier);
    TierIsCovered(db, tier);
    if rows == [] {
      NothingInTier(db.stakes, tier);
    } else if Escrow(game) in db.books.accounts {
      if FreshStakes(db.books, rows, game) {
        ConsumeFirstKeeps(db.books, rows, game, db.groups, |rows|);
        FundedAll(db.books, rows);
        if Consume(db, tier, game, expected).Ok? {
          CommittedAfterConsume(db, Consume(db, tier, game, expected).value.0, tier, game);
        }
      } else {
        StaleStakesRefused(db.books, rows, game, db.groups);
      }
    }
  }

  lemma CommittedAfterConsume(db: Db, db': Db, tier: string, game: string)
    requires Committed(db) && Escrow(game) in db.books.accounts
    requires var rows := InTier(db.stakes, tier);
             && ConsumedFirst(db.books, db'.books, rows, game, db.groups, |rows|)
             && (forall i :: 0 <= i < |rows| ==> Custody(rows[i].user) in db.books.accounts)
    requires db'.stakes == NotInTier(db.stakes, tier) && db'.withdrawals == db.withdrawals
    ensures Committed(db') && Sound(db'.books)
  {
    hide Sound;
    var rows := InTier(db.stakes, tier);
    TierSplit(db.stakes, tier);
    assert rows[..|rows|] == rows;
    forall u ensures CommittedUser(db', u) {
      assert CommittedUser(db, u);
      if Custody(u) in db.books.accounts { assert ConsumedUser(db.books, db'.books, rows[..|rows|], u); }
      else { StakesOfUnfunded(db.books, rows, u); }
    }
  }

  lemma {:induction false} NothingInTier(stakes: seq<Reservation>, tier: string)
    requires InTier(stakes, tier) == []
    ensures NotInTier(stakes, tier) == stakes
  {
    if stakes != [] { NothingInTier(stakes[..|stakes| - 1], tier); }
  }

  lemma {:induction false} StakesOfUnfunded(b: Books, rows: seq<Reservation>, u: string)
    requires forall i :: 0 <= i < |rows| ==> Custody(rows[i].user) in b.accounts
    requires Custody(u) !in b.accounts
    ensures StakesOf(rows, u) == 0
  {
    StakesOfAbsent(rows, u);
  }

  lemma EarlyCovered(b: Books, rows: seq<Reservation>, n: nat)
    requires n <= |rows| && StakesValid(rows) && DistinctUsers(rows)
    requires forall u :: Custody(u) in b.accounts ==> StakesOf(rows, u) <= b.accounts[Custody(u)].reserved
    ensures StakesValid(rows[..n]) && DistinctUsers(rows[..n])
    ensures forall u :: Custody(u) in b.accounts ==> StakesOf(rows[..n], u) <= b.accounts[Custody(u)].reserved
  {
    forall u | Custody(u) in b.accounts ensures StakesOf(rows[..n], u) <= b.accounts[Custody(u)].reserved {
      StakesSplit(rows, n, u);
      StakesNonNegative(rows[n..], u);
    }
  }

  // Stakes a game already took are refused as duplicates, not charged again.
  lemma {:induction false} StaleStakesRefused(b: Books, rows: seq<Reservation>, game: string, group: nat)
    requires Sound(b) && Escrow(game) in b.accounts
    requires StakesValid(rows) && DistinctUsers(rows) && !FreshStakes(b, rows, game)
    requires forall i :: 0 <= i < |rows| ==> Custody(rows[i].user) in b.accounts
    requires forall u :: Custody(u) in b.accounts ==>
               StakesOf(rows, u) <= b.accounts[Custody(u)].reserved <= b.accounts[Custody(u)].balance
    ensures ConsumeFirst(b, rows, game, group, |rows|) == Err(DuplicateKey)
  {
    hide *;
    var n := FirstStale(b, rows, game);
    var early := rows[..n];
    EarlyCovered(b, rows, n);
    EarlyFunded(b, rows, n);
    ConsumeFirstKeeps(b, early, game, group, n);
    ConsumePrefix(b, rows, early, game, group, n);
    StaleStep(b, rows, game, group, n);
    StaysErr(b, rows, game, group, n + 1, |rows|);
  }

  lemma EarlyFunded(b: Books, rows: seq<Reservation>, n: nat)
    requires n <= |rows| && forall i :: 0 <= i < |rows| ==> Custody(rows[i].user) in b.accounts
    ensures forall i :: 0 <= i < |rows[..n]| ==> Custody(rows[..n][i].user) in b.accounts
  {
  }

  function FirstStale(b: Books, rows: seq<Reservation>, game: string): (n: nat)
    requires !FreshStakes(b, rows, game)
    ensures n < |rows| && FreshStakes(b, rows[..n], game)
    ensures HasKey(b.rows, Stake(game, rows[n].user)) || HasKey(b.rows, StakeEscrow(game, rows[n].user))
  {
    if HasKey(b.rows, Stake(game, rows[0].user)) || HasKey(b.rows, StakeEscrow(game, rows[0].user)) then 0
    else
      var n := FirstStale(b, rows[1..], game);
      assert rows[..n + 1] == [rows[0]] + rows[1..][..n];
      n + 1
  }

  lemma StaleStep(b: Books, rows: seq<Reservation>, game: string, group: nat, n: nat)
    requires n < |rows| && Escrow(game) in b.accounts && StakesValid(rows) && DistinctUsers(rows)
    requires HasKey(b.rows, Stake(game, rows[n].user)) || HasKey(b.rows, StakeEscrow(game, rows[n].user))
    requires Custody(rows[n].user) in b.accounts
    requires StakesOf(rows, rows[n].user) <= b.accounts[Custody(rows[n].user)].balance
    requires ConsumeFirst(b, rows, game, group, n).Ok?
    requires ConsumedFirst(b, ConsumeFirst(b, rows, game, group, n).value, rows[..n], game, group, n)
    ensures ConsumeFirst(b, rows, game, group, n + 1) == Err(DuplicateKey)
  {
    hide Sound, Move, Less, FreshStakes;
    var mid := ConsumeFirst(b, rows, game, group, n).value;
    var u := rows[n].user;
    assert rows[..n][..n] == rows[..n];
    assert ConsumedUser(b, mid, rows[..n], u);
    assert mid.rows[..|b.rows|] == b.rows;
    UnspentStake(rows, n);
    hide ConsumedFirst, StakesOf;
    KeysStay(b.rows, mid.rows, Stake(game, u));
    KeysStay(b.rows, mid.rows, StakeEscrow(game, u));
    hide HasKey;
  }

  lemma UnspentStake(rows: seq<Reservation>, n: nat)
    requires n < |rows| && StakesValid(rows) && DistinctUsers(rows)
    ensures StakesOf(rows[..n], rows[n].user) == 0 && rows[n].lamports <= StakesOf(rows, rows[n].user)
  {
    var u := rows[n].user;
    StakesOfAbsent(rows[..n], u);
    StakesSplit(rows, n + 1, u);
    StakesNonNegative(rows[n + 1..], u);
    assert rows[..n + 1][..n] == rows[..n];
  }

  lemma KeysStay(rows: seq<Row>, longer: seq<Row>, k: Key)
    requires |rows| <= |longer| && longer[..|rows|] == rows
    ensures HasKey(rows, k) ==> HasKey(longer, k)
  {
    if HasKey(rows, k) {
      var i :| 0 <= i < |rows| && rows[i].key == k;
      assert longer[..|rows|][i] == longer[i];
    }
  }

  lemma {:induction false} ConsumePrefix(
      b: Books, rows: seq<Reservation>, early: seq<Reservation>, game: string, group: nat, n: nat)
    requires n <= |early| <= |rows| && early == rows[..|early|] && Escrow(game) in b.accounts
    ensures ConsumeFirst(b, rows, game, group, n) == ConsumeFirst(b, early, game, group, n)
  {
    hide Less, HasKey, Move, SetReserved, StakeMove;
    if n > 0 { ConsumePrefix(b, rows, early, game, group, n - 1); }
  }

  lemma {:induction false} StaysErr(b: Books, rows: seq<Reservation>, game: string, group: nat, n: nat, m: nat)
    requires n <= m <= |rows| && Escrow(game) in b.accounts && ConsumeFirst(b, rows, game, group, n).Err?
    ensures ConsumeFirst(b, rows, game, group, m) == ConsumeFirst(b, rows, game, group, n)
  {
    if n < m { StaysErr(b, rows, game, group, n, m - 1); }
  }
}
